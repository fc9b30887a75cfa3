/** The memtable's skip list (skiplist): sequential operations, and a reader that runs beside an insertion. */
module SkipList {
  import opened Keys

  type Key = InternalKey<UserKey>

  const MAX_HEIGHT := 12

  datatype Link = Null | To(node: nat)

  /** A node has as many links as it is high. */
  datatype Node = Node(key: Key, next: seq<Link>)

  /** Nodes by address; node 0 is the head, whose key does not matter. */
  datatype Arena = Arena(nodes: seq<Node>, maxHeight: nat)

  function Next(a: Arena, n: nat, level: nat): Link {
    if n < |a.nodes| && level < |a.nodes[n].next| then a.nodes[n].next[level] else Null
  }

  function KeyOf(a: Arena, n: nat): Key {
    if n < |a.nodes| then a.nodes[n].key else InternalKey(0.0, 0, Deletion)
  }

  function SetNext(a: Arena, n: nat, level: nat, link: Link): Arena {
    if n < |a.nodes| && level < |a.nodes[n].next| then
      a.(nodes := a.nodes[n := a.nodes[n].(next := a.nodes[n].next[level := link])])
    else a
  }

  // ----- the lists that the links make -----

  /** The node before position i of a list, counting the head. */
  function At(s: seq<nat>, i: nat): nat
    requires i <= |s|
  {
    if i == 0 then 0 else s[i - 1]
  }

  /** Following the links of a level from the head visits exactly s. */
  ghost predicate Chain(a: Arena, level: nat, s: seq<nat>) {
    && (forall i :: 0 <= i < |s| ==> 0 < s[i] < |a.nodes| && level < |a.nodes[s[i]].next|)
    && forall i :: 0 <= i <= |s| ==> Next(a, At(s, i), level) == if i < |s| then To(s[i]) else Null
  }

  ghost predicate Ascending(a: Arena, s: seq<nat>) {
    forall i, j :: 0 <= i < j < |s| ==> Before(KeyOf(a, s[i]), KeyOf(a, s[j]))
  }

  ghost predicate Sublist(s: seq<nat>, t: seq<nat>) {
    forall n :: n in s ==> n in t
  }

  ghost predicate LevelOk(a: Arena, level: nat, s: seq<nat>) {
    Chain(a, level, s) && Ascending(a, s)
  }

  ghost predicate Nested(lists: seq<seq<nat>>) {
    forall l {:trigger lists[l]} :: 0 < l < |lists| ==> Sublist(lists[l], lists[l - 1])
  }

  /** Each level is a sorted list, and a sublist of the level below. */
  ghost predicate Linked(a: Arena, lists: seq<seq<nat>>) {
    && |lists| == MAX_HEIGHT && 1 <= a.maxHeight <= MAX_HEIGHT
    && a.nodes != [] && |a.nodes[0].next| == MAX_HEIGHT
    && (forall l :: 0 <= l < MAX_HEIGHT ==> LevelOk(a, l, lists[l]))
    && Nested(lists)
    && forall l :: a.maxHeight <= l < MAX_HEIGHT ==> lists[l] == []
  }

  /** Where a key belongs in a list: the number of nodes before it. */
  ghost predicate Place(a: Arena, s: seq<nat>, key: Key, p: int) {
    && 0 <= p <= |s|
    && (forall i :: 0 <= i < p ==> Before(KeyOf(a, s[i]), key))
    && forall i :: p <= i < |s| ==> AtOrBefore(key, KeyOf(a, s[i]))
  }

  lemma {:induction false} PositionOf(s: seq<nat>, n: nat) returns (i: nat)
    requires n == 0 || n in s
    ensures i <= |s| && At(s, i) == n
  {
    i := 0;
    if n != 0 {
      var k :| 0 <= k < |s| && s[k] == n;
      i := k + 1;
    }
  }

  lemma {:induction false} UpToHere(a: Arena, s: seq<nat>, key: Key, i: nat)
    requires Ascending(a, s) && 0 < i <= |s| && Before(KeyOf(a, s[i - 1]), key)
    ensures forall j :: 0 <= j < i ==> Before(KeyOf(a, s[j]), key)
  {
    forall j | 0 <= j < i - 1 ensures Before(KeyOf(a, s[j]), key) {
      assert Before(KeyOf(a, s[j]), KeyOf(a, s[i - 1]));
    }
  }

  lemma {:induction false} FromHere(a: Arena, s: seq<nat>, key: Key, i: nat)
    requires Ascending(a, s) && i < |s| && AtOrBefore(key, KeyOf(a, s[i]))
    ensures forall j :: i <= j < |s| ==> AtOrBefore(key, KeyOf(a, s[j]))
  {
    forall j | i < j < |s| ensures AtOrBefore(key, KeyOf(a, s[j])) {
      assert Before(KeyOf(a, s[i]), KeyOf(a, s[j]));
    }
  }

  /** A node before the key whose successor is not: this is the place. */
  lemma {:induction false} OneLook(a: Arena, s: seq<nat>, key: Key, i: nat)
    requires Ascending(a, s) && i <= |s| && (i > 0 ==> Before(KeyOf(a, s[i - 1]), key))
    requires i < |s| ==> AtOrBefore(key, KeyOf(a, s[i]))
    ensures Place(a, s, key, i)
  {
    if i > 0 { UpToHere(a, s, key, i); }
    if i < |s| { FromHere(a, s, key, i); }
  }

  // ----- linking one level -----

  function Inserted(s: seq<nat>, p: nat, x: nat): seq<nat>
    requires p <= |s|
  {
    s[..p] + [x] + s[p..]
  }

  /** Insert's first store for a level: x takes over the successor of its predecessor. */
  function Prepare(a: Arena, level: nat, x: nat, prev: nat): Arena {
    SetNext(a, x, level, Next(a, prev, level))
  }

  /** Its second store, with a barrier before it: x is there for everybody. */
  function Publish(a: Arena, level: nat, x: nat, prev: nat): Arena {
    SetNext(a, prev, level, To(x))
  }

  function LinkLevel(a: Arena, level: nat, x: nat, prev: nat): Arena {
    Publish(Prepare(a, level, x, prev), level, x, prev)
  }

  /** x is a node that is not in the list of this level yet. */
  ghost predicate Loose(a: Arena, level: nat, s: seq<nat>, x: nat) {
    0 < x < |a.nodes| && x !in s && level < |a.nodes[x].next|
  }

  lemma {:induction false} LinkSame(a: Arena, level: nat, x: nat, prev: nat, n: nat, l: nat)
    requires x != prev
    ensures KeyOf(LinkLevel(a, level, x, prev), n) == KeyOf(a, n)
    ensures |LinkLevel(a, level, x, prev).nodes| == |a.nodes|
    ensures n < |a.nodes| ==> |LinkLevel(a, level, x, prev).nodes[n].next| == |a.nodes[n].next|
    ensures l != level || (n != x && n != prev) ==> Next(LinkLevel(a, level, x, prev), n, l) == Next(a, n, l)
    ensures LinkLevel(a, level, x, prev).maxHeight == a.maxHeight
  {
  }

  /** Where the place i of the longer list comes from. */
  lemma {:induction false} InsertedAt(s: seq<nat>, p: nat, x: nat, i: nat)
    requires p <= |s| && i <= |s| + 1
    ensures var t := Inserted(s, p, x);
            && |t| == |s| + 1
            && At(t, i) == (if i <= p then At(s, i) else if i == p + 1 then x else At(s, i - 1))
            && (i < |t| ==> t[i] == if i < p then s[i] else if i == p then x else s[i - 1])
  {
  }

  lemma {:induction false} LinkedNext(a: Arena, level: nat, s: seq<nat>, x: nat, p: nat, i: nat)
    requires Chain(a, level, s) && Ascending(a, s) && p <= |s| && Loose(a, level, s, x) && i <= |s| + 1
    requires a.nodes != [] && level < |a.nodes[0].next|
    ensures var t := Inserted(s, p, x);
            Next(LinkLevel(a, level, x, At(s, p)), At(t, i), level) == if i < |t| then To(t[i]) else Null
  {
    var prev := At(s, p);
    InsertedAt(s, p, x, i);
    if i < p {
      DistinctNodes(a, s, i, p);
      LinkSame(a, level, x, prev, At(s, i), level);
    } else if i > p + 1 {
      DistinctNodes(a, s, p, i - 1);
      LinkSame(a, level, x, prev, At(s, i - 1), level);
    }
  }

  lemma {:induction false} LinkedChain(a: Arena, level: nat, s: seq<nat>, x: nat, p: nat)
    requires Chain(a, level, s) && Ascending(a, s) && p <= |s| && Loose(a, level, s, x)
    requires a.nodes != [] && level < |a.nodes[0].next|
    ensures Chain(LinkLevel(a, level, x, At(s, p)), level, Inserted(s, p, x))
  {
    var a', t, prev := LinkLevel(a, level, x, At(s, p)), Inserted(s, p, x), At(s, p);
    forall i | 0 <= i < |t| ensures 0 < t[i] < |a'.nodes| && level < |a'.nodes[t[i]].next| {
      InsertedAt(s, p, x, i);
      LinkSame(a, level, x, prev, t[i], level);
    }
    forall i | 0 <= i <= |t| ensures Next(a', At(t, i), level) == if i < |t| then To(t[i]) else Null {
      LinkedNext(a, level, s, x, p, i);
    }
  }

  lemma {:induction false} DistinctNodes(a: Arena, s: seq<nat>, i: nat, j: nat)
    requires Ascending(a, s) && i < j <= |s| && forall k :: 0 <= k < |s| ==> 0 < s[k]
    ensures At(s, i) != At(s, j)
  {
    if i > 0 {
      assert Before(KeyOf(a, s[i - 1]), KeyOf(a, s[j - 1]));
    }
  }

  lemma {:induction false} LinkedAscending(a: Arena, level: nat, s: seq<nat>, x: nat, p: nat, prev: nat)
    requires Ascending(a, s) && Place(a, s, KeyOf(a, x), p) && x != prev
    requires forall n :: n in s ==> KeyOf(a, n) != KeyOf(a, x)
    ensures Ascending(LinkLevel(a, level, x, prev), Inserted(s, p, x))
  {
    var a', t := LinkLevel(a, level, x, prev), Inserted(s, p, x);
    forall n ensures KeyOf(a', n) == KeyOf(a, n) { LinkSame(a, level, x, prev, n, 0); }
    forall i, j | 0 <= i < j < |t| ensures Before(KeyOf(a', t[i]), KeyOf(a', t[j])) {
      if j == p {
        assert t[i] == s[i] && t[j] == x;
      } else if i == p {
        assert t[j] == s[j - 1] && s[j - 1] in s;
      }
    }
  }

  // ----- one more level linked -----

  /** An insertion that has linked its node at the levels below i. */
  ghost predicate Underway(a: Arena, lists: seq<seq<nat>>, x: nat, height: nat, i: nat) {
    && Linked(a, lists) && i <= height <= a.maxHeight
    && 0 < x < |a.nodes| && |a.nodes[x].next| == height
    && (forall l :: 0 <= l < i ==> x in lists[l])
    && (forall l :: i <= l < MAX_HEIGHT ==> x !in lists[l])
    && forall n :: n in lists[0] && n != x ==> KeyOf(a, n) != KeyOf(a, x)
  }

  lemma {:induction false} AllAtBottom(lists: seq<seq<nat>>, l: nat, n: nat)
    requires Nested(lists) && l < |lists| && n in lists[l]
    ensures n in lists[0]
  {
    if l > 0 {
      AllAtBottom(lists, l - 1, n);
    }
  }

  lemma {:induction false} OtherLevelsStay(a: Arena, level: nat, x: nat, prev: nat, l: nat, s: seq<nat>)
    requires Chain(a, l, s) && Ascending(a, s) && l != level && x != prev
    ensures Chain(LinkLevel(a, level, x, prev), l, s) && Ascending(LinkLevel(a, level, x, prev), s)
  {
    forall n { LinkSame(a, level, x, prev, n, l); }
  }

  lemma {:induction false} InsertedHas(s: seq<nat>, p: nat, x: nat)
    requires p <= |s|
    ensures forall n :: n in Inserted(s, p, x) <==> n == x || n in s
  {
    assert s == s[..p] + s[p..];
  }

  lemma {:induction false} LinkNests(lists: seq<seq<nat>>, i: nat, p: nat, x: nat)
    requires Nested(lists) && i < |lists| && p <= |lists[i]| && (i > 0 ==> x in lists[i - 1])
    ensures Nested(lists[i := Inserted(lists[i], p, x)])
  {
    InsertedHas(lists[i], p, x);
  }

  lemma {:induction false} LinkLevelAt(a: Arena, lists: seq<seq<nat>>, x: nat, height: nat, i: nat, p: nat, l: nat)
    requires Underway(a, lists, x, height, i) && i < height && p <= |lists[i]| && Place(a, lists[i], KeyOf(a, x), p)
    requires l < MAX_HEIGHT
    ensures At(lists[i], p) != x
    ensures LevelOk(LinkLevel(a, i, x, At(lists[i], p)), l, if l == i then Inserted(lists[i], p, x) else lists[l])
  {
    var prev := At(lists[i], p);
    assert x != prev;
    if l != i {
      OtherLevelsStay(a, i, x, prev, l, lists[l]);
    } else {
      forall n | n in lists[i] ensures KeyOf(a, n) != KeyOf(a, x) { AllAtBottom(lists, i, n); }
      LinkedChain(a, i, lists[i], x, p);
      LinkedAscending(a, i, lists[i], x, p, prev);
    }
  }

  ghost predicate SameKeys(a: Arena, a': Arena) {
    forall n: nat :: KeyOf(a', n) == KeyOf(a, n)
  }

  lemma {:induction false} LinkKeepsKeys(a: Arena, level: nat, x: nat, prev: nat)
    requires x != prev
    ensures SameKeys(a, LinkLevel(a, level, x, prev))
  {
    forall n: nat ensures KeyOf(LinkLevel(a, level, x, prev), n) == KeyOf(a, n) {
      LinkSame(a, level, x, prev, n, 0);
    }
  }

  lemma {:induction false} LinkKeepsLinked(a: Arena, lists: seq<seq<nat>>, x: nat, height: nat, i: nat, p: nat)
    requires Underway(a, lists, x, height, i) && i < height && p <= |lists[i]| && Place(a, lists[i], KeyOf(a, x), p)
    ensures At(lists[i], p) != x && Linked(LinkLevel(a, i, x, At(lists[i], p)), lists[i := Inserted(lists[i], p, x)])
  {
    var lists' := lists[i := Inserted(lists[i], p, x)];
    LinkLevelAt(a, lists, x, height, i, p, i);
    forall l | 0 <= l < MAX_HEIGHT ensures LevelOk(LinkLevel(a, i, x, At(lists[i], p)), l, lists'[l]) {
      LinkLevelAt(a, lists, x, height, i, p, l);
    }
    LinkNests(lists, i, p, x);
    LinkSame(a, i, x, At(lists[i], p), 0, 0);
  }

  lemma {:induction false} LinkMembers(a: Arena, a': Arena, lists: seq<seq<nat>>, x: nat, height: nat, i: nat, p: nat)
    requires Underway(a, lists, x, height, i) && i < height && p <= |lists[i]| && SameKeys(a, a')
    ensures var lists' := lists[i := Inserted(lists[i], p, x)];
            && (forall l :: 0 <= l < i + 1 ==> x in lists'[l])
            && (forall l :: i + 1 <= l < MAX_HEIGHT ==> x !in lists'[l])
            && forall n :: n in lists'[0] && n != x ==> KeyOf(a', n) != KeyOf(a', x)
  {
    InsertedHas(lists[i], p, x);
  }

  /** Every intermediate step of Insert leaves each level sorted and a sublist of the level below. */
  lemma {:induction false} LinkKeeps(a: Arena, lists: seq<seq<nat>>, x: nat, height: nat, i: nat, p: nat)
    requires Underway(a, lists, x, height, i) && i < height && p <= |lists[i]| && Place(a, lists[i], KeyOf(a, x), p)
    ensures Underway(LinkLevel(a, i, x, At(lists[i], p)), lists[i := Inserted(lists[i], p, x)], x, height, i + 1)
    ensures SameKeys(a, LinkLevel(a, i, x, At(lists[i], p)))
  {
    LinkKeepsLinked(a, lists, x, height, i, p);
    LinkKeepsKeys(a, i, x, At(lists[i], p));
    LinkMembers(a, LinkLevel(a, i, x, At(lists[i], p)), lists, x, height, i, p);
    LinkSame(a, i, x, At(lists[i], p), x, 0);
  }

  // ----- half of a level linked -----

  lemma {:induction false} PrepareSame(a: Arena, level: nat, x: nat, prev: nat, n: nat, l: nat)
    ensures KeyOf(Prepare(a, level, x, prev), n) == KeyOf(a, n)
    ensures |Prepare(a, level, x, prev).nodes| == |a.nodes| && Prepare(a, level, x, prev).maxHeight == a.maxHeight
    ensures n < |a.nodes| ==> |Prepare(a, level, x, prev).nodes[n].next| == |a.nodes[n].next|
    ensures l != level || n != x ==> Next(Prepare(a, level, x, prev), n, l) == Next(a, n, l)
  {
  }

  lemma {:induction false} PreparedChain(a: Arena, level: nat, x: nat, prev: nat, l: nat, s: seq<nat>)
    requires LevelOk(a, l, s) && x > 0 && (l != level || x !in s)
    ensures LevelOk(Prepare(a, level, x, prev), l, s)
  {
    forall n { PrepareSame(a, level, x, prev, n, l); }
    assert forall i :: 0 <= i <= |s| ==> At(s, i) == 0 || At(s, i) in s;
  }

  /** x has the successor that the place p in the list of its next level has, and nobody can see it there yet. */
  ghost predicate HalfLinked(a: Arena, lists: seq<seq<nat>>, x: nat, height: nat, i: nat, p: nat) {
    && Underway(a, lists, x, height, i) && i < height && p <= |lists[i]| && Place(a, lists[i], KeyOf(a, x), p)
    && Next(a, x, i) == Next(a, At(lists[i], p), i)
  }

  lemma {:induction false} PreparedLevels(a: Arena, lists: seq<seq<nat>>, x: nat, height: nat, i: nat, prev: nat)
    requires Underway(a, lists, x, height, i)
    ensures Linked(Prepare(a, i, x, prev), lists)
  {
    forall l | 0 <= l < MAX_HEIGHT ensures LevelOk(Prepare(a, i, x, prev), l, lists[l]) {
      PreparedChain(a, i, x, prev, l, lists[l]);
    }
    PrepareSame(a, i, x, prev, 0, 0);
  }

  lemma {:induction false} PrepareKeeps(a: Arena, lists: seq<seq<nat>>, x: nat, height: nat, i: nat, p: nat)
    requires Underway(a, lists, x, height, i) && i < height && p <= |lists[i]| && Place(a, lists[i], KeyOf(a, x), p)
    ensures HalfLinked(Prepare(a, i, x, At(lists[i], p)), lists, x, height, i, p)
    ensures SameKeys(a, Prepare(a, i, x, At(lists[i], p)))
  {
    var prev := At(lists[i], p);
    PreparedLevels(a, lists, x, height, i, prev);
    forall n: nat { PrepareSame(a, i, x, prev, n, i); }
    assert prev != x;
  }

  /** Publishing then is all that linking the level takes. */
  lemma {:induction false} PublishLinks(a: Arena, lists: seq<seq<nat>>, x: nat, height: nat, i: nat, p: nat)
    requires HalfLinked(a, lists, x, height, i, p)
    ensures Publish(a, i, x, At(lists[i], p)) == LinkLevel(a, i, x, At(lists[i], p))
  {
    assert a.nodes[x].next[i := a.nodes[x].next[i]] == a.nodes[x].next;
    assert a.nodes[x := a.nodes[x]] == a.nodes;
  }

  // ----- a new node -----

  function Allocate(a: Arena, key: Key, height: nat): Arena {
    Arena(a.nodes + [Node(key, seq(height, i => Null))], if height > a.maxHeight then height else a.maxHeight)
  }

  ghost predicate Absent(a: Arena, lists: seq<seq<nat>>, key: Key)
    requires |lists| > 0
  {
    forall n :: n in lists[0] ==> KeyOf(a, n) != key
  }

  lemma {:induction false} AllocateKeeps(a: Arena, lists: seq<seq<nat>>, key: Key, height: nat)
    requires Linked(a, lists) && Absent(a, lists, key) && 1 <= height <= MAX_HEIGHT
    ensures Underway(Allocate(a, key, height), lists, |a.nodes|, height, 0)
    ensures forall n: nat :: n < |a.nodes| ==> KeyOf(Allocate(a, key, height), n) == KeyOf(a, n)
  {
    var a' := Allocate(a, key, height);
    assert forall n :: 0 <= n < |a.nodes| ==> a'.nodes[n] == a.nodes[n];
    forall l | 0 <= l < MAX_HEIGHT ensures LevelOk(a', l, lists[l]) && |a.nodes| !in lists[l] {
      assert forall i :: 0 <= i <= |lists[l]| ==> At(lists[l], i) < |a.nodes|;
    }
    assert forall n :: n in lists[0] ==> n < |a.nodes|;
  }

  // ----- searching, one link at a time -----

  /** A search under way: it stands on a node before the target, and looks at a level next. */
  datatype Reader = Searching(target: Key, x: nat, level: nat) | Found(target: Key, result: Link)

  /** KeyIsAfterNode: no node counts as infinite. */
  predicate KeyIsAfterNode(a: Arena, key: Key, n: Link) {
    n.To? && Before(KeyOf(a, n.node), key)
  }

  /** FindGreaterOrEqual's loop body. */
  function Look(a: Arena, r: Reader): Reader {
    if r.Found? then r
    else
      var next := Next(a, r.x, r.level);
      if KeyIsAfterNode(a, r.target, next) then Searching(r.target, next.node, r.level)
      else if r.level == 0 then Found(r.target, next)
      else Searching(r.target, r.x, r.level - 1)
  }

  function StartSearch(a: Arena, target: Key): Reader {
    Searching(target, 0, if a.maxHeight == 0 then 0 else a.maxHeight - 1)
  }

  ghost predicate OnTheWay(a: Arena, lists: seq<seq<nat>>, r: Reader)
    requires Linked(a, lists)
  {
    r.Searching? ==> r.level < MAX_HEIGHT && (r.x == 0 || (r.x in lists[r.level] && Before(KeyOf(a, r.x), r.target)))
  }

  /** The first node at or after the target in the whole list. */
  ghost predicate FirstFrom(a: Arena, lists: seq<seq<nat>>, target: Key, result: Link)
    requires |lists| > 0
  {
    exists p :: Place(a, lists[0], target, p) && result == if p < |lists[0]| then To(lists[0][p]) else Null
  }

  lemma {:induction false} LookKeeps(a: Arena, lists: seq<seq<nat>>, r: Reader)
    requires Linked(a, lists) && OnTheWay(a, lists, r)
    ensures OnTheWay(a, lists, Look(a, r))
    ensures r.Searching? && Look(a, r).Found? ==> FirstFrom(a, lists, r.target, Look(a, r).result)
  {
    if r.Searching? {
      var s := lists[r.level];
      assert LevelOk(a, r.level, s);
      var i := PositionOf(s, r.x);
      if i < |s| {
        assert s[i] in s;
      }
      if !KeyIsAfterNode(a, r.target, Next(a, r.x, r.level)) {
        OneLook(a, s, r.target, i);
        if r.level > 0 {
          assert Sublist(lists[r.level], lists[r.level - 1]);
        }
      }
    }
  }

  /** How much of a quiet list is still ahead of a search: levels, and nodes at this one. */
  ghost predicate Ahead(lists: seq<seq<nat>>, r: Reader, i: nat)
    requires r.Searching? && r.level < |lists|
  {
    i <= |lists[r.level]| && r.x == At(lists[r.level], i)
  }

  /** Each look finds the place, or comes to the next node of the level, or to the level below. */
  lemma {:induction false} LookAdvances(a: Arena, lists: seq<seq<nat>>, r: Reader, i: nat)
    requires Linked(a, lists) && OnTheWay(a, lists, r) && r.Searching? && Ahead(lists, r, i)
    ensures var r' := Look(a, r);
            || r'.Found?
            || (r'.level == r.level && Ahead(lists, r', i + 1))
            || (r.level > 0 && r'.level == r.level - 1 && r'.x == r.x)
  {
    assert LevelOk(a, r.level, lists[r.level]);
  }

  function Looks(a: Arena, r: Reader, n: nat): Reader
    decreases n
  {
    if n == 0 then r else Looks(a, Look(a, r), n - 1)
  }

  lemma {:induction false} StandsSomewhere(a: Arena, lists: seq<seq<nat>>, r: Reader) returns (j: nat)
    requires Linked(a, lists) && OnTheWay(a, lists, r) && r.Searching?
    ensures r.level < |lists| && Ahead(lists, r, j)
  {
    j := PositionOf(lists[r.level], r.x);
  }

  lemma {:induction false} LookOnce(a: Arena, lists: seq<seq<nat>>, r: Reader, r': Reader, i: nat) returns (j: nat)
    requires Linked(a, lists) && OnTheWay(a, lists, r) && r.Searching? && Ahead(lists, r, i)
    requires r' == Look(a, r) && r'.Searching?
    ensures OnTheWay(a, lists, r') && r'.level < |lists| && Ahead(lists, r', j)
    ensures r'.level < r.level || (r'.level == r.level && j == i + 1)
  {
    LookAdvances(a, lists, r, i);
    LookKeeps(a, lists, r);
    if r'.level < r.level {
      j := StandsSomewhere(a, lists, r');
    } else {
      j := i + 1;
    }
  }

  /** So a search in a list that nobody changes ends. */
  lemma {:induction false} SearchEnds(a: Arena, lists: seq<seq<nat>>, r: Reader, i: nat) returns (n: nat)
    requires Linked(a, lists) && OnTheWay(a, lists, r) && r.Searching? && Ahead(lists, r, i)
    ensures Looks(a, r, n).Found?
    decreases r.level, |lists[r.level]| - i
  {
    var r' := Look(a, r);
    n := 0;
    if r'.Searching? {
      var j := LookOnce(a, lists, r, r', i);
      n := SearchEnds(a, lists, r', j);
    }
    assert Looks(a, r, n + 1) == Looks(a, r', n);
    n := n + 1;
  }

  // ----- a writer and a reader side by side -----

  /** The writer has linked its node at the levels below i; then it has set the node's own link of level i as well, for
      place p. */
  datatype Writer = Resting | Linking(x: nat, height: nat, i: nat) | Prepared(x: nat, height: nat, i: nat, p: nat)

  datatype World = World(arena: Arena, lists: seq<seq<nat>>, writer: Writer, reader: Reader)

  datatype Action =
    | BeginInsert(key: Key, height: nat)
    | PrepareNext(p: nat)
    | PublishNext
    | BeginSearch(target: Key)
    | ReadLink

  ghost predicate Good(w: World) {
    && Linked(w.arena, w.lists) && OnTheWay(w.arena, w.lists, w.reader)
    && (w.writer.Linking? ==>
        Underway(w.arena, w.lists, w.writer.x, w.writer.height, w.writer.i) &&
        w.writer.i < w.writer.height)
    && (w.writer.Prepared? ==>
        HalfLinked(w.arena, w.lists, w.writer.x, w.writer.height, w.writer.i, w.writer.p))
  }

  ghost predicate Can(w: World, act: Action) {
    match act
    case BeginInsert(key, height) => w.writer.Resting? && 1 <= height <= MAX_HEIGHT && |w.lists| > 0 &&
        Absent(w.arena, w.lists, key)
    case PrepareNext(p) => w.writer.Linking? && w.writer.i < |w.lists| &&
        Place(w.arena, w.lists[w.writer.i], KeyOf(w.arena, w.writer.x), p)
    case PublishNext => w.writer.Prepared?
    case BeginSearch(_) => true
    case ReadLink => true
  }

  function Do(w: World, act: Action): World {
    match act
    case BeginInsert(key, height) =>
      w.(arena := Allocate(w.arena, key, height), writer := Linking(|w.arena.nodes|, height, 0))
    case PrepareNext(p) =>
      if !(w.writer.Linking? && w.writer.i < |w.lists| && p <= |w.lists[w.writer.i]|) then w
      else
        var i, x := w.writer.i, w.writer.x;
        w.(arena := Prepare(w.arena, i, x, At(w.lists[i], p)), writer := Prepared(x, w.writer.height, i, p))
    case PublishNext =>
      if !(w.writer.Prepared? && w.writer.i < |w.lists| && w.writer.p <= |w.lists[w.writer.i]|) then w
      else
        var i, x, p := w.writer.i, w.writer.x, w.writer.p;
        World(Publish(w.arena, i, x, At(w.lists[i], p)), w.lists[i := Inserted(w.lists[i], p, x)],
              if i + 1 < w.writer.height then Linking(x, w.writer.height, i + 1) else Resting, w.reader)
    case BeginSearch(target) => w.(reader := StartSearch(w.arena, target))
    case ReadLink => w.(reader := Look(w.arena, w.reader))
  }

  /** The writer's steps take no node away and change no key. */
  ghost predicate Grows(w: World, w': World) {
    && |w.lists| == |w'.lists| && (forall l :: 0 <= l < |w.lists| ==> Sublist(w.lists[l], w'.lists[l]))
    && |w.arena.nodes| <= |w'.arena.nodes|
    && forall n: nat :: n < |w.arena.nodes| ==> KeyOf(w'.arena, n) == KeyOf(w.arena, n)
  }

  lemma {:induction false} BeginKeeps(w: World, key: Key, height: nat)
    requires Good(w) && Can(w, BeginInsert(key, height))
    ensures Good(Do(w, BeginInsert(key, height))) && Grows(w, Do(w, BeginInsert(key, height)))
  {
    AllocateKeeps(w.arena, w.lists, key, height);
  }

  lemma {:induction false} PrepareStep(w: World, p: nat)
    requires Good(w) && Can(w, PrepareNext(p))
    ensures Good(Do(w, PrepareNext(p))) && Grows(w, Do(w, PrepareNext(p)))
  {
    PrepareKeeps(w.arena, w.lists, w.writer.x, w.writer.height, w.writer.i, p);
  }

  lemma {:induction false} PublishStep(w: World)
    requires Good(w) && Can(w, PublishNext)
    ensures Good(Do(w, PublishNext)) && Grows(w, Do(w, PublishNext))
  {
    var i, x, p := w.writer.i, w.writer.x, w.writer.p;
    PublishLinks(w.arena, w.lists, x, w.writer.height, i, p);
    LinkKeeps(w.arena, w.lists, x, w.writer.height, i, p);
    InsertedHas(w.lists[i], p, x);
  }

  lemma {:induction false} DoKeeps(w: World, act: Action)
    requires Good(w) && Can(w, act)
    ensures Good(Do(w, act)) && Grows(w, Do(w, act))
  {
    match act
    case BeginInsert(key, height) => BeginKeeps(w, key, height);
    case PrepareNext(p) => PrepareStep(w, p);
    case PublishNext => PublishStep(w);
    case BeginSearch(_) =>
    case ReadLink => LookKeeps(w.arena, w.lists, w.reader);
  }

  // ----- runs -----

  ghost predicate Possible(w: World, run: seq<Action>)
    decreases |run|
  {
    run == [] || (Can(w, run[0]) && Possible(Do(w, run[0]), run[1..]))
  }

  function Final(w: World, run: seq<Action>): World
    decreases |run|
  {
    if run == [] then w else Final(Do(w, run[0]), run[1..])
  }

  lemma {:induction false} RunKeeps(w: World, run: seq<Action>)
    requires Good(w) && Possible(w, run)
    ensures Good(Final(w, run)) && Grows(w, Final(w, run))
    decreases |run|
  {
    if run != [] {
      DoKeeps(w, run[0]);
      RunKeeps(Do(w, run[0]), run[1..]);
    }
  }

  /** A search that has ended has found the first of the nodes at or after its target, or a newer one before it. */
  ghost predicate RightFor(a: Arena, r: Reader, n0: seq<nat>) {
    r.Found? ==>
      && (r.result.To? ==> AtOrBefore(r.target, KeyOf(a, r.result.node)))
      && forall n :: n in n0 && AtOrBefore(r.target, KeyOf(a, n)) ==>
           r.result.To? && AtOrBefore(KeyOf(a, r.result.node), KeyOf(a, n))
  }

  ghost predicate Right(w: World, n0: seq<nat>) {
    RightFor(w.arena, w.reader, n0)
  }

  lemma {:induction false} FirstIsRight(a: Arena, lists: seq<seq<nat>>, target: Key, result: Link, n: nat)
    requires Linked(a, lists) && FirstFrom(a, lists, target, result) && n in lists[0] && AtOrBefore(target, KeyOf(a, n))
    ensures result.To? && AtOrBefore(KeyOf(a, result.node), KeyOf(a, n))
  {
    var p :| Place(a, lists[0], target, p) && result == if p < |lists[0]| then To(lists[0][p]) else Null;
    var i :| 0 <= i < |lists[0]| && lists[0][i] == n;
    assert LevelOk(a, 0, lists[0]);
    assert p < i ==> Before(KeyOf(a, lists[0][p]), KeyOf(a, lists[0][i]));
  }

  lemma {:induction false} StaysRight(w: World, run: seq<Action>, n0: seq<nat>)
    requires Good(w) && Possible(w, run) && w.reader.Found? && |w.lists| > 0 && Right(w, n0)
    requires forall i :: 0 <= i < |run| ==> !run[i].BeginSearch?
    requires forall n :: n in n0 ==> n < |w.arena.nodes|
    requires w.reader.result.To? ==> w.reader.result.node < |w.arena.nodes|
    ensures |Final(w, run).lists| > 0 && Right(Final(w, run), n0)
    decreases |run|
  {
    if run != [] {
      DoKeeps(w, run[0]);
      StaysRight(Do(w, run[0]), run[1..], n0);
    }
  }

  lemma {:induction false} FirstOfAll(a: Arena, lists: seq<seq<nat>>, target: Key, result: Link, n0: seq<nat>)
    requires Linked(a, lists) && FirstFrom(a, lists, target, result) && Sublist(n0, lists[0])
    ensures RightFor(a, Found(target, result), n0) && (result.To? ==> result.node < |a.nodes|)
  {
    ResultKnown(a, lists, target, result);
    forall n | n in n0 && AtOrBefore(target, KeyOf(a, n))
      ensures result.To? && AtOrBefore(KeyOf(a, result.node), KeyOf(a, n))
    {
      FirstIsRight(a, lists, target, result, n);
    }
  }

  /** The look at which a search ends finds what is right. */
  lemma {:induction false} LastLook(a: Arena, lists: seq<seq<nat>>, r: Reader, n0: seq<nat>)
    requires Linked(a, lists) && OnTheWay(a, lists, r) && Sublist(n0, lists[0])
    requires r.Searching? && Look(a, r).Found?
    ensures var f := Look(a, r); RightFor(a, f, n0) && (f.result.To? ==> f.result.node < |a.nodes|)
  {
    LookKeeps(a, lists, r);
    FirstOfAll(a, lists, r.target, Look(a, r).result, n0);
  }

  /** A search that runs beside any number of insertions never skips a node that was there when it started. */
  lemma {:induction false} NeverSkips(w: World, run: seq<Action>, n0: seq<nat>)
    requires Good(w) && Possible(w, run) && w.reader.Searching?
    requires (forall i :: 0 <= i < |run| ==> !run[i].BeginSearch?) && Sublist(n0, w.lists[0])
    requires forall n :: n in n0 ==> n < |w.arena.nodes|
    ensures |Final(w, run).lists| > 0 && Right(Final(w, run), n0)
    decreases |run|
  {
    if run != [] {
      var w' := Do(w, run[0]);
      DoKeeps(w, run[0]);
      if w'.reader.Searching? {
        NodesKnown(w', n0);
        NeverSkips(w', run[1..], n0);
      } else {
        LastLook(w.arena, w.lists, w.reader, n0);
        StaysRight(w', run[1..], n0);
      }
    }
  }

  lemma {:induction false} ResultKnown(a: Arena, lists: seq<seq<nat>>, target: Key, result: Link)
    requires Linked(a, lists) && FirstFrom(a, lists, target, result)
    ensures result.To? ==> result.node < |a.nodes| && AtOrBefore(target, KeyOf(a, result.node))
  {
    assert LevelOk(a, 0, lists[0]);
  }

  lemma {:induction false} NodesKnown(w: World, n0: seq<nat>)
    requires Good(w) && Sublist(n0, w.lists[0])
    ensures forall n :: n in n0 ==> n < |w.arena.nodes|
  {
    assert LevelOk(w.arena, 0, w.lists[0]);
  }

  // ----- the list as one object -----

  class SkipList {
    var arena: Arena
    ghost var lists: seq<seq<nat>>

    ghost predicate Ok()
      reads this
    {
      Linked(arena, lists)
    }

    /** The nodes in order. */
    ghost function Nodes(): seq<nat>
      requires Ok()
      reads this
    {
      lists[0]
    }

    constructor ()
      ensures Ok() && Nodes() == []
    {
      arena := Arena([Node(InternalKey(0.0, 0, Deletion), seq(MAX_HEIGHT, i => Null))], 1);
      lists := seq(MAX_HEIGHT, i => []);
      new;
      assert forall l :: 0 <= l < MAX_HEIGHT ==> LevelOk(arena, l, lists[l]);
    }

    /** The node comes last before the target at its level. */
    ghost predicate PrevAt(prev: nat, level: nat, target: Key)
      requires Ok() && level < MAX_HEIGHT
      reads this
    {
      exists p :: Place(arena, lists[level], target, p) && prev == At(lists[level], p)
    }

    /** A node of a level to start from, before the target. */
    ghost predicate From(x: nat, level: nat, target: Key)
      requires Ok() && level < MAX_HEIGHT
      reads this
    {
      x == 0 || (x in lists[level] && Before(KeyOf(arena, x), target))
    }

    /** Keeps searching in one list, until the next node is not before the target. */
    method Walk(target: Key, start: nat, level: nat) returns (x: nat, next: Link)
      requires Ok() && level < MAX_HEIGHT && From(start, level, target)
      ensures PrevAt(x, level, target) && From(x, level, target) && next == Next(arena, x, level)
    {
      ghost var s := lists[level];
      assert LevelOk(arena, level, s);
      ghost var i := PositionOf(s, start);
      x := start;
      next := Next(arena, x, level);
      while KeyIsAfterNode(arena, target, next)
        invariant i <= |s| && x == At(s, i) && next == Next(arena, x, level)
        invariant i > 0 ==> Before(KeyOf(arena, s[i - 1]), target)
        decreases |s| - i
      {
        x := next.node;
        i := i + 1;
        next := Next(arena, x, level);
      }
      OneLook(arena, s, target, i);
    }

    /** From some level up, prev lists the last nodes before the target. */
    ghost predicate PrevsFrom(prev: seq<nat>, level: nat, target: Key)
      requires Ok() && |prev| <= MAX_HEIGHT
      reads this
    {
      forall l :: level <= l < |prev| ==> PrevAt(prev[l], l, target)
    }

    lemma {:induction false} OneMorePrev(prev: seq<nat>, level: nat, target: Key, x: nat)
      requires Ok() && level < |prev| <= MAX_HEIGHT && PrevsFrom(prev, level + 1, target) && PrevAt(x, level, target)
      ensures PrevsFrom(prev[level := x], level, target)
    {
    }

    method FindGreaterOrEqual(target: Key) returns (next: Link, prev: seq<nat>)
      requires Ok()
      ensures FirstFrom(arena, lists, target, next)
      ensures |prev| == arena.maxHeight && PrevsFrom(prev, 0, target)
    {
      var x, level := 0, arena.maxHeight;
      prev, next := seq(arena.maxHeight, l => 0), Null;
      while level > 0
        invariant 0 <= level <= arena.maxHeight && |prev| == arena.maxHeight
        invariant level > 0 ==> From(x, level - 1, target)
        invariant level == 0 ==> PrevAt(x, 0, target) && next == Next(arena, x, 0)
        invariant PrevsFrom(prev, level, target)
      {
        level := level - 1;
        x, next := Walk(target, x, level);
        OneMorePrev(prev, level, target, x);
        prev := prev[level := x];
        FromBelow(x, level, target);
      }
      FirstIsNext(x, target);
    }

    lemma {:induction false} FromBelow(x: nat, level: nat, target: Key)
      requires Ok() && level < MAX_HEIGHT && From(x, level, target)
      ensures level > 0 ==> From(x, level - 1, target)
    {
      if level > 0 {
        assert Sublist(lists[level], lists[level - 1]);
      }
    }

    lemma {:induction false} FirstIsNext(x: nat, target: Key)
      requires Ok() && PrevAt(x, 0, target)
      ensures FirstFrom(arena, lists, target, Next(arena, x, 0))
    {
      assert LevelOk(arena, 0, lists[0]);
    }

    /** The latest node before the target, or the head. */
    method FindLessThan(target: Key) returns (x: nat)
      requires Ok()
      ensures PrevAt(x, 0, target)
    {
      x := 0;
      var level := arena.maxHeight;
      var next := Null;
      while level > 0
        invariant 0 <= level <= arena.maxHeight
        invariant level > 0 ==> From(x, level - 1, target)
        invariant level == 0 ==> PrevAt(x, 0, target)
      {
        level := level - 1;
        x, next := Walk(target, x, level);
        FromBelow(x, level, target);
      }
    }

    /** The last node, or the head. */
    method FindLast() returns (x: nat)
      requires Ok()
      ensures x == At(Nodes(), |Nodes()|)
    {
      x := 0;
      var level := arena.maxHeight;
      while level > 0
        invariant 0 <= level <= arena.maxHeight
        invariant level > 0 ==> x == 0 || x in lists[level - 1]
        invariant level == 0 ==> x == At(lists[0], |lists[0]|)
      {
        level := level - 1;
        x := WalkToEnd(x, level);
        assert level > 0 ==> Sublist(lists[level], lists[level - 1]);
      }
    }

    method WalkToEnd(start: nat, level: nat) returns (x: nat)
      requires Ok() && level < MAX_HEIGHT && (start == 0 || start in lists[level])
      ensures x == At(lists[level], |lists[level]|)
    {
      ghost var s := lists[level];
      assert LevelOk(arena, level, s);
      ghost var i := PositionOf(s, start);
      x := start;
      while Next(arena, x, level).To?
        invariant i <= |s| && x == At(s, i)
        decreases |s| - i
      {
        x := Next(arena, x, level).node;
        i := i + 1;
      }
    }

    method Contains(key: Key) returns (r: bool)
      requires Ok()
      ensures r <==> exists n :: n in Nodes() && KeyOf(arena, n) == key
    {
      var next, prev := FindGreaterOrEqual(key);
      r := next.To? && KeyOf(arena, next.node) == key;
      FoundIfThere(key, next);
    }

    lemma {:induction false} FoundIfThere(key: Key, next: Link)
      requires Ok() && FirstFrom(arena, lists, key, next)
      ensures next.To? && KeyOf(arena, next.node) == key <==> exists n :: n in Nodes() && KeyOf(arena, n) == key
    {
      var p :| Place(arena, lists[0], key, p) && next == if p < |lists[0]| then To(lists[0][p]) else Null;
      if n :| n in Nodes() && KeyOf(arena, n) == key {
        FirstIsRight(arena, lists, key, next, n);
      }
    }

    /** A new node of some height goes in at its place; at every step in between, all lists are in order. */
    method Insert(key: Key, height: nat)
      requires Ok() && Absent(arena, lists, key) && 1 <= height <= MAX_HEIGHT
      modifies this
      ensures Ok() && NowHas(old(arena), old(Nodes()), key, arena, Nodes())
      ensures forall l :: 0 <= l < MAX_HEIGHT ==> (old(|arena.nodes|) in lists[l] <==> l < height)
    {
      var prev := FindPrevs(key, height);
      StartsInOrder(arena, lists, key, height);
      ghost var a0, lists0 := arena, lists;
      LinkAll(key, height, prev);
      EndsInOrder(a0, lists0, key, height, arena, lists);
    }

    /** Above the list's height the head comes before everything. */
    method FindPrevs(key: Key, height: nat) returns (prev: seq<nat>)
      requires Ok() && height <= MAX_HEIGHT
      ensures height <= |prev| && forall l :: 0 <= l < height ==> Prev(arena, lists[l], key, prev[l])
    {
      var next;
      next, prev := FindGreaterOrEqual(key);
      ghost var found := prev;
      if height > |prev| {
        prev := prev + seq(height - |prev|, l => 0);
      }
      forall l | 0 <= l < height ensures Prev(arena, lists[l], key, prev[l]) {
        if l < |found| {
          assert PrevAt(found[l], l, key);
        } else {
          assert lists[l] == [] && Place(arena, lists[l], key, 0);
        }
      }
    }

    method LinkAll(key: Key, height: nat, prev: seq<nat>)
      requires height <= |prev| && height <= MAX_HEIGHT && |lists| == MAX_HEIGHT
      requires Halfway(arena, lists, key, height, 0, Allocate(arena, key, height), lists)
      requires forall l :: 0 <= l < height ==> Prev(arena, lists[l], key, prev[l])
      modifies this
      ensures Halfway(old(arena), old(lists), key, height, height, arena, lists)
    {
      ghost var a0, lists0 := arena, lists;
      var x := |arena.nodes|;
      arena := Allocate(arena, key, height);
      for i := 0 to height
        invariant Halfway(a0, lists0, key, height, i, arena, lists)
      {
        ghost var p := StepInOrder(a0, lists0, key, height, i, arena, lists, prev[i]);
        arena := Prepare(arena, i, x, prev[i]);
        arena := Publish(arena, i, x, prev[i]);
        lists := lists[i := Inserted(lists[i], p, x)];
      }
    }
  }

  // ----- an insertion under way, against the list it started from -----

  ghost predicate Prev(a: Arena, s: seq<nat>, key: Key, prev: nat) {
    exists p :: Place(a, s, key, p) && prev == At(s, p)
  }

  ghost predicate Halfway(a0: Arena, lists0: seq<seq<nat>>, key: Key, height: nat, i: nat, a: Arena,
                          lists: seq<seq<nat>>) {
    var x := |a0.nodes|;
    && |lists0| == MAX_HEIGHT && Underway(a, lists, x, height, i) && KeyOf(a, x) == key
    && (forall n: nat :: n < x ==> KeyOf(a, n) == KeyOf(a0, n))
    && (forall l :: 0 <= l < MAX_HEIGHT ==> forall n :: n in lists0[l] ==> n < x)
    && (forall l :: i <= l < MAX_HEIGHT ==> lists[l] == lists0[l])
    && (i > 0 ==> exists p :: Place(a0, lists0[0], key, p) && lists[0] == Inserted(lists0[0], p, x))
  }

  lemma {:induction false} StartsInOrder(a: Arena, lists: seq<seq<nat>>, key: Key, height: nat)
    requires Linked(a, lists) && Absent(a, lists, key) && 1 <= height <= MAX_HEIGHT
    ensures Halfway(a, lists, key, height, 0, Allocate(a, key, height), lists)
  {
    AllocateKeeps(a, lists, key, height);
    forall l, n | 0 <= l < MAX_HEIGHT && n in lists[l] ensures n < |a.nodes| {
      assert LevelOk(a, l, lists[l]);
    }
  }

  /** One node more, in its place; the others are as they were. */
  ghost predicate NowHas(a0: Arena, s0: seq<nat>, key: Key, a: Arena, s: seq<nat>) {
    && (exists p :: Place(a0, s0, key, p) && s == Inserted(s0, p, |a0.nodes|))
    && KeyOf(a, |a0.nodes|) == key && forall n: nat :: n < |a0.nodes| ==> KeyOf(a, n) == KeyOf(a0, n)
  }

  lemma {:induction false} EndsInOrder(a0: Arena, lists0: seq<seq<nat>>, key: Key, height: nat, a: Arena,
                                       lists: seq<seq<nat>>)
    requires Halfway(a0, lists0, key, height, height, a, lists) && 1 <= height
    ensures Linked(a, lists) && |lists0| > 0 && NowHas(a0, lists0[0], key, a, lists[0])
    ensures forall l :: 0 <= l < MAX_HEIGHT ==> (|a0.nodes| in lists[l] <==> l < height)
  {
  }

  lemma {:induction false} StepInOrder(a0: Arena, lists0: seq<seq<nat>>, key: Key, height: nat, i: nat, a: Arena,
                                       lists: seq<seq<nat>>, prev: nat)
    returns (p: nat)
    requires Halfway(a0, lists0, key, height, i, a, lists) && i < height && Prev(a0, lists0[i], key, prev)
    ensures i < |lists| && p <= |lists[i]|
    ensures Halfway(a0, lists0, key, height, i + 1, LinkLevel(a, i, |a0.nodes|, prev),
            lists[i := Inserted(lists[i], p, |a0.nodes|)])
  {
    p :| Place(a0, lists0[i], key, p) && prev == At(lists0[i], p);
    SamePlace(a0, a, lists0[i], key, p);
    LinkKeeps(a, lists, |a0.nodes|, height, i, p);
    StillHalfway(a0, lists0, key, height, i, a, lists, p);
  }

  lemma {:induction false} StillHalfway(a0: Arena, lists0: seq<seq<nat>>, key: Key, height: nat, i: nat, a: Arena,
                                        lists: seq<seq<nat>>, p: nat)
    requires Halfway(a0, lists0, key, height, i, a, lists) && i < height && p <= |lists[i]|
    requires Place(a0, lists0[i], key, p)
    requires var a', lists' := LinkLevel(a, i, |a0.nodes|, At(lists[i], p)),
             lists[i := Inserted(lists[i], p, |a0.nodes|)];
             Underway(a', lists', |a0.nodes|, height, i + 1) && SameKeys(a, a')
    ensures Halfway(a0, lists0, key, height, i + 1, LinkLevel(a, i, |a0.nodes|, At(lists[i], p)),
            lists[i := Inserted(lists[i], p, |a0.nodes|)])
  {
  }

  lemma {:induction false} SamePlace(a0: Arena, a: Arena, s: seq<nat>, key: Key, p: int)
    requires Place(a0, s, key, p) && forall n :: n in s ==> KeyOf(a, n) == KeyOf(a0, n)
    ensures Place(a, s, key, p)
  {
  }
}
