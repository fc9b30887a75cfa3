/** What a lookup means: over a set of entries, the newest one with sequence at most the snapshot. */
module Reads {
  import opened Keys
  import opened Cursors

  predicate Sees(e: Entry, user: UserKey, snapshot: Sequence) {
    e.key.user == user && e.key.sequence <= snapshot
  }

  /** The newest entry of E for `user` that a reader at the snapshot may see. */
  ghost predicate Newest(E: set<Entry>, user: UserKey, snapshot: Sequence, e: Entry) {
    && e in E && Sees(e, user, snapshot)
    && forall f :: f in E && Sees(f, user, snapshot) ==> f.key.sequence <= e.key.sequence
  }

  /** No two writes of a key share a sequence number. */
  ghost predicate Distinct(E: set<Entry>) {
    forall a, b :: a in E && b in E && a.key.user == b.key.user && a.key.sequence == b.key.sequence ==> a == b
  }

  datatype Answer = NotFound | Found(value: Bytes)

  function AnswerOf(e: Entry): Answer {
    if e.key.kind.Deletion? then NotFound else Found(e.value)
  }

  ghost function ReadAt(E: set<Entry>, user: UserKey, snapshot: Sequence): Answer {
    if e :| Newest(E, user, snapshot, e) then AnswerOf(e) else NotFound
  }

  ghost predicate Blank(E: set<Entry>, user: UserKey, snapshot: Sequence) {
    forall e :: e in E ==> !Sees(e, user, snapshot)
  }

  lemma {:induction false} ReadNewest(E: set<Entry>, user: UserKey, snapshot: Sequence, e: Entry)
    requires Distinct(E) && Newest(E, user, snapshot, e)
    ensures ReadAt(E, user, snapshot) == AnswerOf(e)
  {
    assert forall f :: Newest(E, user, snapshot, f) ==> f == e;
  }

  lemma {:induction false} NewestExists(E: set<Entry>, user: UserKey, snapshot: Sequence)
    ensures Blank(E, user, snapshot) || exists e :: Newest(E, user, snapshot, e)
  {
    if e :| e in E && Sees(e, user, snapshot) {
      NewestExists(E - {e}, user, snapshot);
      if f :| Newest(E - {e}, user, snapshot, f) {
        assert Newest(E, user, snapshot, if f.key.sequence <= e.key.sequence then e else f);
      } else {
        assert Newest(E, user, snapshot, e);
      }
    }
  }

  /** For every user key, every entry of A is newer than every entry of B. */
  ghost predicate NewerThan(A: set<Entry>, B: set<Entry>) {
    forall a, b :: a in A && b in B && a.key.user == b.key.user ==> a.key.sequence > b.key.sequence
  }

  /** A layer that has a visible entry hides everything below it. */
  lemma {:induction false} ReadLayered(A: set<Entry>, B: set<Entry>, user: UserKey, snapshot: Sequence)
    requires Distinct(A + B) && NewerThan(A, B)
    ensures ReadAt(A + B, user, snapshot) == if Blank(A, user, snapshot) then ReadAt(B, user, snapshot)
            else ReadAt(A, user, snapshot)
  {
    if Blank(A, user, snapshot) {
      NewestExists(B, user, snapshot);
      if e :| Newest(B, user, snapshot, e) {
        ReadNewest(B, user, snapshot, e);
        ReadNewest(A + B, user, snapshot, e);
      } else {
        assert Blank(A + B, user, snapshot);
      }
    } else {
      NewestExists(A, user, snapshot);
      var e :| Newest(A, user, snapshot, e);
      ReadNewest(A, user, snapshot, e);
      ReadNewest(A + B, user, snapshot, e);
    }
  }

  function Set(s: seq<Entry>): set<Entry> {
    set e | e in s
  }

  /** Seeking a sorted run to (user, snapshot) lands on the newest visible entry of the user key, if any. */
  lemma {:induction false} SeekFindsNewest(s: seq<Entry>, user: UserKey, snapshot: Sequence, p: int)
    requires Sorted(s) && SeeksTo(s, SeekKey(user, snapshot), p)
    ensures if p < |s| && s[p].key.user == user then Newest(Set(s), user, snapshot, s[p])
            else Blank(Set(s), user, snapshot)
  {
    forall e | e in s && Sees(e, user, snapshot)
      ensures p < |s| && s[p].key.user == user && e.key.sequence <= s[p].key.sequence
    {
      var i :| 0 <= i < |s| && s[i] == e;
      assert p <= i;
      assert i == p || Before(s[p].key, s[i].key);
    }
  }
}
