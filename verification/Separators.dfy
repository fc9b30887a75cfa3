/** Shortened index keys (comparator, dbformat): separators and successors, byte by byte. */
module Separators {
  import opened Keys

  type ByteKey = InternalKey<Bytes>

  predicate BeforeBytes(a: ByteKey, b: ByteKey) {
    Before(InternalKey(Rank(a.user), a.sequence, a.kind), InternalKey(Rank(b.user), b.sequence, b.kind))
  }

  /** What FindShortestSeparator leaves in `start`, following the bytes from the front. */
  function Separator(start: Bytes, limit: Bytes): (r: Bytes)
    ensures |r| <= |start|
  {
    if start == [] || limit == [] then start
    else if start[0] == limit[0] then [start[0]] + Separator(start[1..], limit[1..])
    else if start[0] as int + 1 < limit[0] as int then [start[0] as int + 1]
    else start
  }

  /** What FindShortSuccessor leaves in `key`: the first byte below 0xff goes up by one. */
  function Successor(key: Bytes): (r: Bytes)
    ensures |r| <= |key|
  {
    if key == [] then []
    else if key[0] != 0xff then [key[0] as int + 1]
    else [key[0]] + Successor(key[1..])
  }

  /** The separator is never below `start`; when it moved, it lies strictly inside the gap. */
  lemma {:induction false} SeparatorBetween(start: Bytes, limit: Bytes)
    ensures var r := Separator(start, limit);
            r == start || (BytesLess(start, r) && BytesLess(r, limit))
  {
    if start != [] && limit != [] && start[0] == limit[0] {
      SeparatorBetween(start[1..], limit[1..]);
      assert start == [start[0]] + start[1..];
    }
  }

  /** Where the first difference leaves room, the separator ends there with the next byte; else nothing changes. */
  lemma {:induction false} SeparatorIs(start: Bytes, limit: Bytes, d: nat)
    requires d < |start| && d < |limit| && start[..d] == limit[..d] && start[d] != limit[d]
    ensures Separator(start, limit) ==
            if start[d] as int + 1 < limit[d] as int then start[..d] + [start[d] as int + 1] else start
    decreases d
  {
    if d > 0 {
      assert start[0] == start[..d][0] == limit[..d][0] == limit[0];
      assert start[1..][..d - 1] == start[..d][1..] && limit[1..][..d - 1] == limit[..d][1..];
      SeparatorIs(start[1..], limit[1..], d - 1);
      assert start == [start[0]] + start[1..] && start[..d] == [start[0]] + start[1..][..d - 1];
    }
  }

  /** The first byte below 0xff goes up by one, and what follows goes. */
  lemma {:induction false} SuccessorIs(key: Bytes, d: nat)
    requires d < |key| && key[d] != 0xff && forall i :: 0 <= i < d ==> key[i] == 0xff
    ensures Successor(key) == key[..d] + [key[d] as int + 1]
    decreases d
  {
    if d > 0 {
      SuccessorIs(key[1..], d - 1);
      assert key[..d] == [key[0]] + key[1..][..d - 1];
    }
  }

  lemma {:induction false} SuccessorAbove(key: Bytes)
    ensures var r := Successor(key);
            r == key || BytesLess(key, r)
    ensures Successor(key) == key <==> forall i :: 0 <= i < |key| ==> key[i] == 0xff
  {
    if key != [] {
      SuccessorAbove(key[1..]);
      assert key == [key[0]] + key[1..];
      if key[0] == 0xff && forall i :: 0 <= i < |key[1..]| ==> key[1..][i] == 0xff {
        assert forall i :: 0 < i < |key| ==> key[i] == key[1..][i - 1];
      }
    }
  }

  /** Separator skips a common prefix of length d. */
  lemma {:induction false} SeparatorSkips(start: Bytes, limit: Bytes, d: nat)
    requires d <= |start| && d <= |limit|
    requires forall k :: 0 <= k < d ==> start[k] == limit[k]
    ensures Separator(start, limit) == start[..d] + Separator(start[d..], limit[d..])
  {
    if d == 0 {
      assert start[0..] == start && limit[0..] == limit;
    } else {
      assert forall k :: 0 <= k < d - 1 ==> start[1..][k] == start[k + 1] && limit[1..][k] == limit[k + 1];
      SeparatorSkips(start[1..], limit[1..], d - 1);
      assert start[0] == limit[0];
      assert start[1..][d - 1..] == start[d..] && limit[1..][d - 1..] == limit[d..];
      assert start[..d] == [start[0]] + start[1..][..d - 1];
    }
  }

  method FindShortestSeparator(start: Bytes, limit: Bytes) returns (r: Bytes)
    ensures r == Separator(start, limit)
  {
    r := start;
    var minLength := if |start| < |limit| then |start| else |limit|;
    var diff := 0;
    while diff < minLength && start[diff] == limit[diff]
      invariant 0 <= diff <= minLength
      invariant forall k :: 0 <= k < diff ==> start[k] == limit[k]
    {
      diff := diff + 1;
    }
    SeparatorSkips(start, limit, diff);
    assert start == start[..diff] + start[diff..];
    if diff >= minLength {
      // a prefix of the limit, or the limit itself, stays as it is
    } else if start[diff] < 0xff && start[diff] as int + 1 < limit[diff] as int {
      r := r[diff := start[diff] as int + 1];
      r := r[..diff + 1];
    }
  }

  method FindShortSuccessor(key: Bytes) returns (r: Bytes)
    ensures r == Successor(key)
  {
    r := key;
    for i := 0 to |key|
      invariant Successor(key) == key[..i] + Successor(key[i..])
      invariant r == key
    {
      if key[i] != 0xff {
        r := r[i := key[i] as int + 1];
        r := r[..i + 1];
        return;
      }
      assert key[i..] == [key[i]] + key[i + 1..];
    }
  }

  // ----- internal keys -----

  function SeparatorKey(start: ByteKey, limit: ByteKey): ByteKey {
    var shorter := Separator(start.user, limit.user);
    if |shorter| < |start.user| && BytesLess(start.user, shorter)
    then InternalKey(shorter, MAX_SEQUENCE, Value) else start
  }

  function SuccessorKey(key: ByteKey): ByteKey {
    var shorter := Successor(key.user);
    if |shorter| < |key.user| && BytesLess(key.user, shorter)
    then InternalKey(shorter, MAX_SEQUENCE, Value) else key
  }

  /** An index key made by the internal comparator separates, and never borrows the limit's user key. */
  lemma {:induction false} SeparatorKeyBetween(start: ByteKey, limit: ByteKey)
    requires BeforeBytes(start, limit)
    ensures !BeforeBytes(SeparatorKey(start, limit), start)
    ensures BeforeBytes(SeparatorKey(start, limit), limit)
    ensures SeparatorKey(start, limit) == start || Rank(SeparatorKey(start, limit).user) < Rank(limit.user)
  {
    var r := Separator(start.user, limit.user);
    SeparatorBetween(start.user, limit.user);
    RankOrder(start.user, r);
    RankOrder(r, limit.user);
  }

  lemma {:induction false} SuccessorKeyAbove(key: ByteKey)
    ensures !BeforeBytes(SuccessorKey(key), key)
  {
    SuccessorAbove(key.user);
    RankOrder(key.user, Successor(key.user));
  }

  method FindShortestSeparatorKey(start: ByteKey, limit: ByteKey) returns (r: ByteKey)
    ensures r == SeparatorKey(start, limit)
  {
    r := start;
    var tmp := FindShortestSeparator(start.user, limit.user);
    if |tmp| < |start.user| && BytesLess(start.user, tmp) {
      r := InternalKey(tmp, MAX_SEQUENCE, Value);
    }
  }

  method FindShortSuccessorKey(key: ByteKey) returns (r: ByteKey)
    ensures r == SuccessorKey(key)
  {
    r := key;
    var tmp := FindShortSuccessor(key.user);
    if |tmp| < |key.user| && BytesLess(key.user, tmp) {
      r := InternalKey(tmp, MAX_SEQUENCE, Value);
    }
  }
}
