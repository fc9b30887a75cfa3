/** The options that LevelDB ships, with its bytewise comparator, are lawful: table lookups rest on a property of the
    comparator that holds of it. */
module Bytewise {
  import opened Keys
  import opened Cursors
  import opened Separators
  import opened Tables

  /** A key of bytes as the layers above see it, and back. */
  function Ranked(k: ByteKey): Key {
    InternalKey(Rank(k.user), k.sequence, k.kind)
  }

  ghost predicate IsRank(user: UserKey) {
    exists a: Bytes :: Rank(a) == user
  }

  ghost function BytesOf(user: UserKey): (a: Bytes)
    requires IsRank(user)
    ensures Rank(a) == user
  {
    var a: Bytes :| Rank(a) == user;
    a
  }

  ghost function Unranked(k: Key): (b: ByteKey)
    requires IsRank(k.user)
    ensures Ranked(b) == k
  {
    InternalKey(BytesOf(k.user), k.sequence, k.kind)
  }

  lemma {:induction false} RankedInverse(k: ByteKey)
    ensures IsRank(Ranked(k).user) && Unranked(Ranked(k)) == k
  {
    RankOrder(BytesOf(Rank(k.user)), k.user);
  }

  /** The comparator's separator; keys that are no byte strings stay as they are. */
  ghost function ShippedSeparator(a: Key, b: Key): Key {
    if IsRank(a.user) && IsRank(b.user) then Ranked(SeparatorKey(Unranked(a), Unranked(b))) else a
  }

  ghost function ShippedSuccessor(a: Key): Key {
    if IsRank(a.user) then Ranked(SuccessorKey(Unranked(a))) else a
  }

  lemma {:induction false} ShippedIs(a: ByteKey, b: ByteKey)
    ensures ShippedSeparator(Ranked(a), Ranked(b)) == Ranked(SeparatorKey(a, b))
    ensures ShippedSuccessor(Ranked(a)) == Ranked(SuccessorKey(a))
  {
    RankedInverse(a);
    RankedInverse(b);
  }

  lemma {:induction false} SeparatorLawful(a: Key, b: Key)
    requires Before(a, b)
    ensures AtOrBefore(a, ShippedSeparator(a, b)) && Before(ShippedSeparator(a, b), b)
    ensures ShippedSeparator(a, b) == a || ShippedSeparator(a, b).user < b.user
  {
    if IsRank(a.user) && IsRank(b.user) {
      SeparatorKeyBetween(Unranked(a), Unranked(b));
    }
  }

  lemma {:induction false} SuccessorLawful(a: Key)
    ensures AtOrBefore(a, ShippedSuccessor(a))
  {
    if IsRank(a.user) {
      SuccessorKeyAbove(Unranked(a));
    }
  }

  /** The shipped comparator with any block sizes and any handle encoding that can be decoded. */
  ghost function ShippedOptions(sizeOf: seq<Entry> -> nat, full: seq<Entry> -> bool,
                                encode: (nat, nat) -> Bytes, decodeOffset: Bytes -> nat): AnyOptions {
    Options((a, b) => ShippedSeparator(a, b), a => ShippedSuccessor(a), sizeOf, full, encode, decodeOffset)
  }

  lemma {:induction false} ShippedIsLawful(sizeOf: seq<Entry> -> nat, full: seq<Entry> -> bool,
                                           encode: (nat, nat) -> Bytes, decodeOffset: Bytes -> nat)
    requires forall o, s :: decodeOffset(encode(o, s)) == o
    ensures ShippedOptions(sizeOf, full, encode, decodeOffset).Lawful()
  {
    forall a: Key, b: Key | Before(a, b)
      ensures AtOrBefore(a, ShippedSeparator(a, b)) && Before(ShippedSeparator(a, b), b)
      ensures ShippedSeparator(a, b) == a || ShippedSeparator(a, b).user < b.user
    {
      SeparatorLawful(a, b);
    }
    forall a: Key ensures AtOrBefore(a, ShippedSuccessor(a)) {
      SuccessorLawful(a);
    }
  }

  /** On the keys that a database has, these options do what the code does with their bytes. */
  lemma {:induction false} ShippedMeans(sizeOf: seq<Entry> -> nat, full: seq<Entry> -> bool,
                                        encode: (nat, nat) -> Bytes, decodeOffset: Bytes -> nat, options: AnyOptions,
                                        a: ByteKey, b: ByteKey)
    requires options == ShippedOptions(sizeOf, full, encode, decodeOffset)
    ensures options.separator(Ranked(a), Ranked(b)) == Ranked(SeparatorKey(a, b))
    ensures options.successor(Ranked(a)) == Ranked(SuccessorKey(a))
  {
    ShippedIs(a, b);
  }
}
