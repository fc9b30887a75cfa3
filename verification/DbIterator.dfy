/** DBIter: the user's view of a run of internal entries at one snapshot, walked in both directions. */
module DbIterator {
  import opened Keys
  import opened Cursors

  predicate Visible(s: seq<Entry>, snapshot: Sequence, i: int)
    requires 0 <= i < |s|
  {
    s[i].key.sequence <= snapshot
  }

  /** Entry i is yielded at the snapshot: the newest visible entry of its user key, and a value. */
  ghost predicate Live(s: seq<Entry>, snapshot: Sequence, i: int)
    requires 0 <= i < |s|
  {
    && Visible(s, snapshot, i)
    && s[i].key.kind.Value?
    && forall j :: 0 <= j < i && s[j].key.user == s[i].key.user ==> !Visible(s, snapshot, j)
  }

  datatype Pair = Pair(key: UserKey, value: Bytes)

  /** The list the user walks: one pair per live entry among the first n entries. */
  ghost function View(s: seq<Entry>, snapshot: Sequence, n: nat): (v: seq<Pair>)
    requires n <= |s|
  {
    if n == 0 then []
    else if Live(s, snapshot, n - 1) then View(s, snapshot, n - 1) + [Pair(s[n - 1].key.user, s[n - 1].value)]
    else View(s, snapshot, n - 1)
  }

  ghost predicate NoneLive(s: seq<Entry>, snapshot: Sequence, lo: int, hi: int) {
    forall i :: 0 <= i < |s| && lo <= i < hi ==> !Live(s, snapshot, i)
  }

  lemma {:induction false} ViewSkips(s: seq<Entry>, snapshot: Sequence, lo: nat, hi: nat)
    requires lo <= hi <= |s| && NoneLive(s, snapshot, lo, hi)
    ensures View(s, snapshot, lo) == View(s, snapshot, hi)
    decreases hi - lo
  {
    if lo < hi {
      ViewSkips(s, snapshot, lo, hi - 1);
    }
  }

  lemma {:induction false} ViewPrefix(s: seq<Entry>, snapshot: Sequence, lo: nat, hi: nat)
    requires lo <= hi <= |s|
    ensures View(s, snapshot, lo) <= View(s, snapshot, hi)
    decreases hi - lo
  {
    if lo < hi {
      ViewPrefix(s, snapshot, lo, hi - 1);
    }
  }

  /** Each pair of the view comes from a live entry, and each live entry gives its pair. */
  lemma {:induction false} ViewAt(s: seq<Entry>, snapshot: Sequence, i: nat)
    requires i < |s| && Live(s, snapshot, i)
    ensures |View(s, snapshot, i)| < |View(s, snapshot, |s|)|
    ensures View(s, snapshot, |s|)[|View(s, snapshot, i)|] == Pair(s[i].key.user, s[i].value)
  {
    ViewPrefix(s, snapshot, i + 1, |s|);
  }

  lemma {:induction false} ViewSource(s: seq<Entry>, snapshot: Sequence, n: nat, v: nat) returns (i: nat)
    requires n <= |s| && v < |View(s, snapshot, n)|
    ensures i < n && Live(s, snapshot, i) && |View(s, snapshot, i)| == v
    ensures View(s, snapshot, n)[v] == Pair(s[i].key.user, s[i].value)
  {
    if v < |View(s, snapshot, n - 1)| {
      i := ViewSource(s, snapshot, n - 1, v);
    } else {
      i := n - 1;
    }
  }

  /** The newest entry for `user` that a reader at the snapshot may see. */
  ghost predicate NewestIn(s: seq<Entry>, snapshot: Sequence, user: UserKey, i: int)
    requires 0 <= i < |s|
  {
    && s[i].key.user == user && Visible(s, snapshot, i)
    && forall j :: 0 <= j < |s| && s[j].key.user == user && Visible(s, snapshot, j)
                   ==> s[j].key.sequence <= s[i].key.sequence
  }

  /** The view is sorted without repeats. */
  lemma {:induction false} ViewSorted(s: seq<Entry>, snapshot: Sequence, a: nat, b: nat)
    requires Sorted(s) && a < b < |View(s, snapshot, |s|)|
    ensures View(s, snapshot, |s|)[a].key < View(s, snapshot, |s|)[b].key
  {
    var i := ViewSource(s, snapshot, |s|, a);
    var j := ViewSource(s, snapshot, |s|, b);
    if j < i {
      ViewPrefix(s, snapshot, j, i);
    }
  }

  /** It holds exactly the keys whose newest visible entry is a value, with that value. */
  lemma {:induction false} ViewMeaning(s: seq<Entry>, snapshot: Sequence, pair: Pair)
    requires Sorted(s)
    requires forall i, j :: 0 <= i < j < |s| && s[i].key.user == s[j].key.user ==>
             s[i].key.sequence != s[j].key.sequence
    ensures pair in View(s, snapshot, |s|) <==>
            exists i :: 0 <= i < |s| && NewestIn(s, snapshot, pair.key, i) && s[i].key.kind.Value? &&
                s[i].value == pair.value
  {
    if pair in View(s, snapshot, |s|) {
      var a :| 0 <= a < |View(s, snapshot, |s|)| && View(s, snapshot, |s|)[a] == pair;
      var i := ViewSource(s, snapshot, |s|, a);
      LiveIsNewest(s, snapshot, i);
    }
    if i :| 0 <= i < |s| && NewestIn(s, snapshot, pair.key, i) && s[i].key.kind.Value? && s[i].value == pair.value {
      LiveIsNewest(s, snapshot, i);
      ViewAt(s, snapshot, i);
    }
  }

  lemma {:induction false} LiveIsNewest(s: seq<Entry>, snapshot: Sequence, i: nat)
    requires Sorted(s) && i < |s|
    requires forall i, j :: 0 <= i < j < |s| && s[i].key.user == s[j].key.user ==>
             s[i].key.sequence != s[j].key.sequence
    ensures Live(s, snapshot, i) <==> NewestIn(s, snapshot, s[i].key.user, i) && s[i].key.kind.Value?
  {
  }

  datatype Direction = Forward | Reverse

  /** saved_key_.clear(): the empty string, which ranks below every key. */
  const NO_KEY: UserKey := 0.0

  /** The loop state of FindNextUserEntry: whether it is skipping, and up to which user key. */
  datatype Skip = Skip(on: bool, upTo: UserKey) {
    predicate Hides(user: UserKey) {
      on && user <= upTo
    }
  }

  /** Live entries passed by a forward scan are those the scan was told to skip. */
  ghost predicate Missed(s: seq<Entry>, snapshot: Sequence, from: nat, skip0: Skip, pos: int) {
    forall i :: 0 <= i < |s| && from <= i < pos && Live(s, snapshot, i) ==> skip0.Hides(s[i].key.user)
  }

  /** Invariant of the forward scan from `from`, told skip0, now at pos with skip. */
  ghost predicate Scanning(s: seq<Entry>, snapshot: Sequence, from: nat, skip0: Skip, pos: nat, skip: Skip) {
    && from <= pos <= |s|
    && Missed(s, snapshot, from, skip0, pos)
    && (skip0.on ==> skip.on && skip0.upTo <= skip.upTo)
    // what is still ahead and visible is not below the skipped key
    && (skip.on ==> forall i :: pos <= i < |s| && Visible(s, snapshot, i) ==> skip.upTo <= s[i].key.user)
    // what an already passed visible entry hides is skipped
    && (forall i, j :: 0 <= j < pos <= i < |s| && s[i].key.user == s[j].key.user && Visible(s, snapshot, j) ==>
        skip.Hides(s[i].key.user))
    // and nothing else is
    && (skip.on && skip != skip0 ==> exists j :: 0 <= j < pos && s[j].key.user == skip.upTo && Visible(s, snapshot, j))
  }

  /** One round of FindNextUserEntry at entry pos: it is yielded, or the scan goes on. */
  lemma {:induction false} ScanStep(s: seq<Entry>, snapshot: Sequence, from: nat, skip0: Skip, pos: nat, skip: Skip)
    requires Sorted(s) && pos < |s| && Scanning(s, snapshot, from, skip0, pos, skip)
    ensures Visible(s, snapshot, pos) && s[pos].key.kind.Value? && !skip.Hides(s[pos].key.user) ==>
              Live(s, snapshot, pos) && !skip0.Hides(s[pos].key.user)
    ensures Visible(s, snapshot, pos) && s[pos].key.kind.Value? && skip.Hides(s[pos].key.user) ==>
              Scanning(s, snapshot, from, skip0, pos + 1, skip)
    ensures Visible(s, snapshot, pos) && s[pos].key.kind.Deletion? ==>
              Scanning(s, snapshot, from, skip0, pos + 1, Skip(true, s[pos].key.user))
    ensures !Visible(s, snapshot, pos) ==> Scanning(s, snapshot, from, skip0, pos + 1, skip)
  {
  }

  /** Invariant of the backward scan that started with `below` entries to look at and has `left` left. */
  ghost predicate Backing(s: seq<Entry>, snapshot: Sequence, below: nat, left: nat, kind: Kind, m: nat) {
    && left <= below <= |s|
    && (kind.Deletion? ==> NoneLive(s, snapshot, left, below))
    && (kind.Value? ==>
          && left <= m < below && Visible(s, snapshot, m) && s[m].key.kind.Value?
          && NoneLive(s, snapshot, m + 1, below)
          && forall j :: left <= j < m ==> !Visible(s, snapshot, j))
  }

  /** One round of FindPrevUserEntry at entry pos: entry m is live, or the scan goes on. */
  lemma {:induction false} BackStep(s: seq<Entry>, snapshot: Sequence, below: nat, pos: nat, kind: Kind, m: nat)
    requires Sorted(s) && pos < |s| && Backing(s, snapshot, below, pos + 1, kind, m)
    ensures !Visible(s, snapshot, pos) ==> Backing(s, snapshot, below, pos, kind, m)
    ensures Visible(s, snapshot, pos) && kind.Value? && s[pos].key.user < s[m].key.user ==> Live(s, snapshot, m)
    ensures Visible(s, snapshot, pos) && !(kind.Value? && s[pos].key.user < s[m].key.user) ==>
              Backing(s, snapshot, below, pos, s[pos].key.kind, pos)
  {
    if Visible(s, snapshot, pos) && kind.Value? && s[pos].key.user < s[m].key.user {
      assert forall j :: 0 <= j < pos ==> s[j].key.user <= s[pos].key.user;
    } else if Visible(s, snapshot, pos) && kind.Value? {
      assert !Live(s, snapshot, m);
    }
  }

  class DBIter {
    const iter: Cursor
    const sequence: Sequence
    var savedKey: UserKey
    var savedValue: Bytes
    var direction: Direction
    var valid: bool
    /** The live entry this iterator stands on, or |iter.entries|. */
    ghost var cur: nat

    ghost predicate Ok()
      reads this, iter
    {
      && iter.Ok() && cur <= |iter.entries|
      && (valid <==> cur < |iter.entries|)
      && (valid ==> Live(iter.entries, sequence, cur))
      && (valid && direction == Forward ==> iter.pos == cur)
      && (valid && direction == Reverse ==>
            && savedKey == iter.entries[cur].key.user && savedValue == iter.entries[cur].value
            && (iter.Valid() ==> iter.pos < cur && iter.Key().user < savedKey)
            && forall j :: (if iter.Valid() then iter.pos + 1 else 0) <= j < cur ==>
                !Visible(iter.entries, sequence, j))
    }

    /** The list being walked, and the place in it. */
    ghost function Pairs(): seq<Pair>
      reads this, iter
    {
      View(iter.entries, sequence, |iter.entries|)
    }

    ghost function At(): nat
      requires Ok()
      reads this, iter
    {
      |View(iter.entries, sequence, cur)|
    }

    constructor (iter: Cursor, sequence: Sequence)
      requires iter.Ok()
      ensures Ok() && this.iter == iter && this.sequence == sequence && !Valid()
    {
      this.iter := iter;
      this.sequence := sequence;
      savedKey, savedValue, direction, valid := NO_KEY, [], Forward, false;
      cur := |iter.entries|;
    }

    predicate Valid()
      reads this
    {
      valid
    }

    function Key(): (k: UserKey)
      requires Ok() && Valid()
      reads this, iter
      ensures At() < |Pairs()| && k == Pairs()[At()].key
    {
      ViewAt(iter.entries, sequence, cur);
      if direction == Forward then iter.Key().user else savedKey
    }

    function Value(): (v: Bytes)
      requires Ok() && Valid()
      reads this, iter
      ensures At() < |Pairs()| && v == Pairs()[At()].value
    {
      ViewAt(iter.entries, sequence, cur);
      if direction == Forward then iter.Value() else savedValue
    }

    method Next()
      requires Ok() && Valid()
      modifies this, iter
      ensures Ok() && At() == old(At()) + 1
      ensures Valid() <==> At() < |Pairs()|
    {
      ghost var was := cur;
      if direction == Reverse {
        direction := Forward;
        if !iter.Valid() {
          iter.SeekToFirst();
        } else {
          iter.Next();
        }
      } else {
        savedKey := iter.Key().user;
      }
      ghost var from := iter.pos;
      FindNextUserEntry(true);
      OneOn(iter.entries, sequence, was, from, cur);
      AtEnd();
    }

    /** After a scan told to skip the key at `was`, started no later than there, the view is one longer. */
    lemma {:induction false} OneOn(s: seq<Entry>, snapshot: Sequence, was: nat, from: nat, now: nat)
      requires Sorted(s) && was < |s| && from <= was && now <= |s|
      requires Live(s, snapshot, was)
      requires now < |s| ==> s[was].key.user < s[now].key.user
      requires Missed(s, snapshot, from, Skip(true, s[was].key.user), now)
      ensures |View(s, snapshot, now)| == |View(s, snapshot, was)| + 1
    {
      ViewSkips(s, snapshot, was + 1, now);
    }

    lemma {:induction false} AtEnd()
      requires Ok()
      ensures Valid() <==> At() < |Pairs()|
    {
      if Valid() {
        ViewAt(iter.entries, sequence, cur);
      }
    }

    /** Moves forward to the first live entry at or after the internal position, past savedKey if skipping. */
    method FindNextUserEntry(skipping0: bool)
      requires iter.Ok() && iter.Valid() && direction == Forward
      requires Scanning(iter.entries, sequence, iter.pos, Skip(skipping0, savedKey), iter.pos,
               Skip(skipping0, savedKey))
      modifies this, iter
      ensures Ok() && old(iter.pos) <= cur
      ensures valid && skipping0 ==> old(savedKey) < iter.entries[cur].key.user
      ensures Missed(iter.entries, sequence, old(iter.pos), Skip(skipping0, old(savedKey)), cur)
    {
      var skipping, skip := skipping0, savedKey;
      valid := false;
      while iter.Valid()
        invariant iter.Ok() && direction == Forward && !valid
        invariant Scanning(iter.entries, sequence, old(iter.pos), Skip(skipping0, old(savedKey)), iter.pos,
                  Skip(skipping, skip))
        decreases |iter.entries| - iter.pos
      {
        ScanStep(iter.entries, sequence, old(iter.pos), Skip(skipping0, old(savedKey)), iter.pos, Skip(skipping, skip));
        var ikey := iter.Key();
        if ikey.sequence <= sequence {
          match ikey.kind
          case Deletion =>
            // what follows of this user key is older than the deletion
            skip := ikey.user;
            skipping := true;
          case Value =>
            if !(skipping && ikey.user <= skip) {
              valid := true;
              break;
            }
        }
        iter.Next();
      }
      savedKey := NO_KEY;
      cur := iter.pos;
    }

    method Prev()
      requires Ok() && Valid()
      modifies this, iter
      ensures Ok() && At() == if old(At()) == 0 then |Pairs()| else old(At()) - 1
      ensures Valid() <==> At() < |Pairs()|
    {
      ghost var was := cur;
      var s := iter.entries;
      if direction == Forward {
        savedKey := iter.Key().user;
        while true
          invariant iter.Ok() && iter.Valid() && iter.pos <= was && savedKey == s[was].key.user
          invariant unchanged(`cur) && unchanged(`valid) && unchanged(`direction)
          invariant NoneLive(s, sequence, iter.pos, was) && s[iter.pos].key.user == savedKey
          decreases iter.pos
        {
          iter.Prev();
          if !iter.Valid() {
            valid := false;
            savedKey := NO_KEY;
            savedValue := [];
            cur := |s|;
            ViewSkips(s, sequence, 0, was);
            return;
          }
          if iter.Key().user < savedKey { break; }
        }
        direction := Reverse;
      }
      ghost var below := Remaining();
      ViewSkips(s, sequence, below, was);
      FindPrevUserEntry();
      if valid {
        ViewSkips(s, sequence, cur + 1, below);
      } else {
        ViewSkips(s, sequence, 0, below);
      }
      AtEnd();
    }

    /** Moves backward to the last live entry at or before the internal position. */
    method FindPrevUserEntry()
      requires iter.Ok() && direction == Reverse
      modifies this, iter
      ensures Ok()
      ensures if valid then cur < old(Remaining()) && NoneLive(iter.entries, sequence, cur + 1, old(Remaining()))
              else NoneLive(iter.entries, sequence, 0, old(Remaining()))
    {
      ghost var below := Remaining();
      var valueType := Kind.Deletion;
      cur := 0;
      while iter.Valid()
        invariant iter.Ok() && direction == Reverse
        invariant Backing(iter.entries, sequence, below, Remaining(), valueType, cur)
        invariant valueType.Value? ==> savedKey == iter.entries[cur].key.user && savedValue == iter.entries[cur].value
        decreases Remaining()
      {
        BackStep(iter.entries, sequence, below, iter.pos, valueType, cur);
        var ikey := iter.Key();
        if ikey.sequence <= sequence {
          if valueType != Kind.Deletion && ikey.user < savedKey {
            // the value saved so far belongs to a later key, and is the one to stop at
            break;
          }
          valueType := ikey.kind;
          if valueType == Kind.Deletion {
            savedKey := NO_KEY;
            savedValue := [];
          } else {
            savedKey := ikey.user;
            savedValue := iter.Value();
            cur := iter.pos;
          }
        }
        iter.Prev();
      }
      if valueType == Kind.Deletion {
        valid := false;
        savedKey := NO_KEY;
        savedValue := [];
        direction := Forward;
        cur := |iter.entries|;
      } else {
        valid := true;
      }
    }

    /** How many entries a backward scan has still to look at. */
    ghost function Remaining(): nat
      reads this, iter
    {
      if iter.Valid() then iter.pos + 1 else 0
    }

    method Seek(target: UserKey)
      requires Ok()
      modifies this, iter
      ensures Ok() && (Valid() <==> At() < |Pairs()|)
      ensures forall v :: 0 <= v < At() ==> Pairs()[v].key < target
      ensures forall v :: At() <= v < |Pairs()| ==> target <= Pairs()[v].key
    {
      direction := Forward;
      savedValue := [];
      savedKey := target;
      iter.Seek(SeekKey(target, sequence));
      ghost var p := iter.pos;
      if iter.Valid() {
        FindNextUserEntry(false);
      } else {
        valid := false;
        cur := |iter.entries|;
      }
      SeekSplits(target, p);
      AtEnd();
    }

    lemma {:induction false} SeekSplits(target: UserKey, p: nat)
      requires Ok() && SeeksTo(iter.entries, SeekKey(target, sequence), p)
      requires p <= cur && NoneLive(iter.entries, sequence, p, cur)
      ensures At() <= |Pairs()|
      ensures forall v :: 0 <= v < At() ==> Pairs()[v].key < target
      ensures forall v :: At() <= v < |Pairs()| ==> target <= Pairs()[v].key
    {
      var s := iter.entries;
      ViewPrefix(s, sequence, cur, |s|);
      forall v | 0 <= v < |Pairs()|
        ensures if v < At() then Pairs()[v].key < target else target <= Pairs()[v].key
      {
        var i := ViewSource(s, sequence, |s|, v);
        if i < cur {
          ViewPrefix(s, sequence, i + 1, cur);
        } else {
          ViewPrefix(s, sequence, cur, i);
        }
      }
    }

    method SeekToFirst()
      requires Ok()
      modifies this, iter
      ensures Ok() && At() == 0 && (Valid() <==> |Pairs()| > 0)
    {
      direction := Forward;
      savedValue := [];
      iter.SeekToFirst();
      if iter.Valid() {
        FindNextUserEntry(false);
      } else {
        valid := false;
        cur := |iter.entries|;
      }
      ViewSkips(iter.entries, sequence, 0, cur);
      AtEnd();
    }

    method SeekToLast()
      requires Ok()
      modifies this, iter
      ensures Ok() && (if |Pairs()| == 0 then !Valid() else Valid() && At() == |Pairs()| - 1)
    {
      direction := Reverse;
      savedValue := [];
      iter.SeekToLast();
      FindPrevUserEntry();
      if valid {
        ViewSkips(iter.entries, sequence, cur + 1, |iter.entries|);
      } else {
        ViewSkips(iter.entries, sequence, 0, |iter.entries|);
      }
    }
  }
}
