/** User keys, internal keys and their orders (dbformat, comparator). */
module Keys {
  type Byte = b: int | 0 <= b < 256
  type Bytes = seq<Byte>

  /** Every layer above the comparator looks at user keys through comparisons only, and a comparator is a total order
      on a countable set, so it embeds into the rationals.  RankOrder proves this for the bytewise comparator. */
  type UserKey = real

  /** An internal key's type field; a deletion sorts after a value with the same sequence number. */
  datatype Kind = Deletion | Value

  const MAX_SEQUENCE: nat := 0xff_ffff_ffff_ffff

  /** Eight bits of the packed word are left for the type. */
  type Sequence = n: nat | n <= MAX_SEQUENCE

  datatype InternalKey<+U> = InternalKey(user: U, sequence: Sequence, kind: Kind)

  function KindCode(k: Kind): nat {
    if k == Value then 1 else 0
  }

  /** The trailing 64-bit word of an encoded internal key. */
  function Pack(sequence: Sequence, kind: Kind): nat {
    sequence * 256 + KindCode(kind)
  }

  /** Increasing user key, then decreasing sequence, then decreasing type. */
  predicate Before(a: InternalKey<UserKey>, b: InternalKey<UserKey>) {
    || a.user < b.user
    || (a.user == b.user && (a.sequence > b.sequence ||
        (a.sequence == b.sequence && a.kind == Value && b.kind == Deletion)))
  }

  predicate AtOrBefore(a: InternalKey<UserKey>, b: InternalKey<UserKey>) {
    !Before(b, a)
  }

  /** The key a lookup at a snapshot seeks to: the first possible entry with sequence <= snapshot. */
  function SeekKey(user: UserKey, snapshot: Sequence): InternalKey<UserKey> {
    InternalKey(user, snapshot, Value)
  }

  /** The code compares packed words; that is the same as comparing sequence, then type. */
  lemma {:induction false} PackedOrder(a: InternalKey<UserKey>, b: InternalKey<UserKey>)
    ensures Before(a, b) <==>
            a.user < b.user || (a.user == b.user && Pack(a.sequence, a.kind) > Pack(b.sequence, b.kind))
    ensures Pack(a.sequence, a.kind) < 0x1_0000_0000_0000_0000
    ensures Pack(a.sequence, a.kind) / 256 == a.sequence && Pack(a.sequence, a.kind) % 256 == KindCode(a.kind)
  {
  }

  lemma {:induction false} JoinBytes(a: Bytes, b: Bytes, c: Bytes)
    ensures (a + b) + c == a + (b + c)
  {
  }

  // ----- the bytewise comparator -----

  /** Slice::compare: the first differing byte decides, and a proper prefix comes first. */
  predicate BytesLess(a: Bytes, b: Bytes) {
    b != [] && (a == [] || a[0] < b[0] || (a[0] == b[0] && BytesLess(a[1..], b[1..])))
  }

  /** An order-preserving embedding of byte strings into [0, 1): digits 1..256 in base 257. */
  function Rank(a: Bytes): (r: UserKey)
    ensures 0.0 <= r < 1.0
    ensures r == 0.0 <==> a == []
  {
    if a == [] then 0.0 else (a[0] as real + 1.0 + Rank(a[1..])) / 257.0
  }

  lemma {:induction false} RankOrder(a: Bytes, b: Bytes)
    ensures BytesLess(a, b) <==> Rank(a) < Rank(b)
    ensures a == b <==> Rank(a) == Rank(b)
  {
    if a != [] && b != [] {
      RankOrder(a[1..], b[1..]);
      if a[0] < b[0] {
        assert a[0] as real + 1.0 <= b[0] as real;
      } else if b[0] < a[0] {
        assert b[0] as real + 1.0 <= a[0] as real;
      } else {
        assert a == [a[0]] + a[1..] && b == [b[0]] + b[1..];
      }
    }
  }
}
