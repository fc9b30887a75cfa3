/** The Bloom filter policy (util/bloom) over any hash function. */
module Bloom {
  import opened Keys
  import opened Coding

  lemma {:induction false} ByteFits(b: Byte, i: nat)
    requires i < 8
    ensures WithBit(b, i) < 256
  {
    assert TwoTo(8) == 256;
    WithBitFits(b, i, 8);
  }

  predicate BitAt(f: Bytes, p: nat) {
    p / 8 < |f| && BitOf(f[p / 8], p % 8)
  }

  /** The bits that are set. */
  ghost function Bits(f: Bytes): set<nat> {
    set p: nat | p < 8 * |f| && BitAt(f, p)
  }

  function SetBit(f: Bytes, p: nat): Bytes
    requires p / 8 < |f|
  {
    ByteFits(f[p / 8], p % 8);
    f[p / 8 := WithBit(f[p / 8], p % 8)]
  }

  lemma {:induction false} SetBitAt(f: Bytes, p: nat, q: nat)
    requires p / 8 < |f|
    ensures BitAt(SetBit(f, p), q) <==> q == p || BitAt(f, q)
  {
    if q / 8 == p / 8 {
      WithBitMeans(f[p / 8], p % 8, q % 8);
    }
  }

  lemma {:induction false} SetBitMeans(f: Bytes, p: nat)
    requires p / 8 < |f|
    ensures |SetBit(f, p)| == |f| && Bits(SetBit(f, p)) == Bits(f) + {p}
  {
    forall q: nat ensures q in Bits(SetBit(f, p)) <==> q in Bits(f) + {p} {
      SetBitAt(f, p, q);
    }
  }

  /** The rotation by 17 bits that gives the step of double hashing. */
  function Delta(h: Word): Word {
    h / 0x2_0000 + h % 0x2_0000 * 0x8000
  }

  lemma {:induction false} BitsOfSum(low: nat, high: nat, n: nat, i: nat)
    requires low < TwoTo(n)
    ensures BitOf(low + high * TwoTo(n), i) <==> if i < n then BitOf(low, i) else BitOf(high, i - n)
    decreases n
  {
    if n > 0 {
      var m := TwoTo(n - 1);
      assert low + high * TwoTo(n) == low + 2 * (high * m);
      HalfOfSum(low, high * m);
      if i > 0 {
        BitsOfSum(low / 2, high, n - 1, i - 1);
      }
    }
  }

  lemma {:induction false} HalfOfSum(low: nat, rest: nat)
    ensures (low + 2 * rest) / 2 == low / 2 + rest && (low + 2 * rest) % 2 == low % 2
  {
  }

  /** It moves every bit down by 17 places, and the last 17 to the top. */
  lemma {:induction false} DeltaRotates(h: Word, i: nat)
    requires i < 32
    ensures BitOf(Delta(h), i) <==> BitOf(h, (i + 17) % 32)
  {
    var low, high := h % 0x2_0000, h / 0x2_0000;
    assert TwoTo(8) == 256 && TwoTo(15) == 128 * TwoTo(8) && TwoTo(17) == 4 * TwoTo(15);
    BitsOfSum(low, high, 17, (i + 17) % 32);
    BitsOfSum(high, low, 15, i);
  }

  /** Addition of 32-bit words, which wraps around. */
  function Step(h: Word, delta: Word): Word {
    if h + delta < 0x1_0000_0000 then h + delta else h + delta - 0x1_0000_0000
  }

  /** h % bits, by repeated subtraction: the bit of a filter that a hash stands for. */
  function Place(h: nat, bits: nat): nat
    requires bits > 0
    decreases h
  {
    if h < bits then h else Place(h - bits, bits)
  }

  lemma {:induction false} PlaceIs(h: nat, bits: nat, q: nat, r: nat)
    requires bits > 0 && h == q * bits + r && r < bits
    ensures Place(h, bits) == r
    decreases h
  {
    if q > 0 {
      assert h - bits == (q - 1) * bits + r;
      PlaceIs(h - bits, bits, q - 1, r);
    }
  }

  lemma {:induction false} PlaceInside(h: nat, bits: nat)
    requires bits > 0
    ensures Place(h, bits) < bits
    decreases h
  {
    if h >= bits {
      PlaceInside(h - bits, bits);
    }
  }

  method BitPos(h: Word, bits: nat) returns (bitpos: nat)
    requires bits > 0
    ensures bitpos == Place(h, bits) < bits
  {
    bitpos := h % bits;
    PlaceIs(h, bits, h / bits, bitpos);
  }

  /** The bits that the k probes from h on hit, out of `bits`. */
  function Probes(h: Word, delta: Word, k: nat, bits: nat): set<nat>
    requires bits > 0
    decreases k
  {
    if k == 0 then {} else {Place(h, bits)} + Probes(Step(h, delta), delta, k - 1, bits)
  }

  function Mark(f: Bytes, h: Word, delta: Word, k: nat): (g: Bytes)
    requires |f| > 0
    ensures |g| == |f|
    decreases k
  {
    PlaceInside(h, 8 * |f|);
    if k == 0 then f else Mark(SetBit(f, Place(h, 8 * |f|)), Step(h, delta), delta, k - 1)
  }

  lemma {:induction false} MarkMeans(f: Bytes, h: Word, delta: Word, k: nat)
    requires |f| > 0
    ensures Bits(Mark(f, h, delta, k)) == Bits(f) + Probes(h, delta, k, 8 * |f|)
    decreases k
  {
    if k > 0 {
      PlaceInside(h, 8 * |f|);
      var g := SetBit(f, Place(h, 8 * |f|));
      SetBitMeans(f, Place(h, 8 * |f|));
      MarkMeans(g, Step(h, delta), delta, k - 1);
    }
  }

  /** The policy's parameters; k is between 1 and 30. */
  datatype Policy = Policy(bitsPerKey: nat, k: nat, hash: Bytes -> Word)

  predicate PolicyOk(policy: Policy) {
    1 <= policy.k <= 30
  }

  function MarkKey(policy: Policy, f: Bytes, key: Bytes): (g: Bytes)
    requires |f| > 0
    ensures |g| == |f|
  {
    var h := policy.hash(key);
    Mark(f, h, Delta(h), policy.k)
  }

  function MarkAll(policy: Policy, f: Bytes, keys: seq<Bytes>): (g: Bytes)
    requires |f| > 0
    ensures |g| == |f|
  {
    if keys == [] then f else MarkKey(policy, MarkAll(policy, f, keys[..|keys| - 1]), keys[|keys| - 1])
  }

  function FilterBytes(policy: Policy, n: nat): (bytes: nat)
    ensures bytes >= 8
  {
    var bits := n * policy.bitsPerKey;
    ((if bits < 64 then 64 else bits) + 7) / 8
  }

  /** The bits, and the number of probes behind them. */
  function Filter(policy: Policy, keys: seq<Bytes>): Bytes
    requires PolicyOk(policy)
  {
    MarkAll(policy, Zeros(FilterBytes(policy, |keys|)), keys) + [policy.k]
  }

  function KeyProbes(policy: Policy, key: Bytes, bits: nat): set<nat>
    requires bits > 0
  {
    Probes(policy.hash(key), Delta(policy.hash(key)), policy.k, bits)
  }

  function AllProbes(policy: Policy, keys: seq<Bytes>, bits: nat): set<nat>
    requires bits > 0
  {
    if keys == [] then {}
    else AllProbes(policy, keys[..|keys| - 1], bits) + KeyProbes(policy, keys[|keys| - 1], bits)
  }

  lemma {:induction false} MarkKeyMeans(policy: Policy, f: Bytes, key: Bytes)
    requires |f| > 0
    ensures Bits(MarkKey(policy, f, key)) == Bits(f) + KeyProbes(policy, key, 8 * |f|)
  {
    MarkMeans(f, policy.hash(key), Delta(policy.hash(key)), policy.k);
  }

  /** Exactly the bits that some key probes are set. */
  lemma {:induction false} MarkAllMeans(policy: Policy, f: Bytes, keys: seq<Bytes>)
    requires |f| > 0
    ensures Bits(MarkAll(policy, f, keys)) == Bits(f) + AllProbes(policy, keys, 8 * |f|)
  {
    if keys != [] {
      var n := |keys| - 1;
      MarkAllMeans(policy, f, keys[..n]);
      MarkKeyMeans(policy, MarkAll(policy, f, keys[..n]), keys[n]);
    }
  }

  lemma {:induction false} KeyIsProbed(policy: Policy, keys: seq<Bytes>, key: Bytes, bits: nat)
    requires bits > 0 && key in keys
    ensures KeyProbes(policy, key, bits) <= AllProbes(policy, keys, bits)
  {
    var n := |keys| - 1;
    if key != keys[n] {
      KeyIsProbed(policy, keys[..n], key, bits);
    }
  }

  // ----- asking -----

  /** All of the k probes from h on hit set bits. */
  predicate AllSet(f: Bytes, h: Word, delta: Word, k: nat)
    requires |f| > 0
    decreases k
  {
    k == 0 || (BitAt(f, Place(h, 8 * |f|)) && AllSet(f, Step(h, delta), delta, k - 1))
  }

  function Matches(policy: Policy, key: Bytes, filter: Bytes): bool {
    |filter| >= 2 && (filter[|filter| - 1] > 30 ||
                      AllSet(filter[..|filter| - 1], policy.hash(key), Delta(policy.hash(key)), filter[|filter| - 1]))
  }

  lemma {:induction false} AllSetMeans(f: Bytes, h: Word, delta: Word, k: nat)
    requires |f| > 0
    ensures AllSet(f, h, delta, k) <==> Probes(h, delta, k, 8 * |f|) <= Bits(f)
    decreases k
  {
    if k > 0 {
      PlaceInside(h, 8 * |f|);
      AllSetMeans(f, Step(h, delta), delta, k - 1);
      assert Place(h, 8 * |f|) in Probes(h, delta, k, 8 * |f|);
    }
  }

  function Zeros(n: nat): (z: Bytes)
    ensures |z| == n
  {
    if n == 0 then [] else [0] + Zeros(n - 1)
  }

  lemma {:induction false} ZerosMeans(n: nat, p: nat)
    ensures !BitAt(Zeros(n), p)
  {
    if n > 0 {
      NoBits(p % 8);
      if p >= 8 {
        ZerosMeans(n - 1, p - 8);
        assert (p - 8) / 8 == p / 8 - 1 && (p - 8) % 8 == p % 8;
      }
    }
  }

  lemma {:induction false} FilterBits(policy: Policy, keys: seq<Bytes>, n: nat)
    requires n > 0
    ensures Bits(MarkAll(policy, Zeros(n), keys)) == AllProbes(policy, keys, 8 * n)
  {
    MarkAllMeans(policy, Zeros(n), keys);
    forall p: nat ensures p !in Bits(Zeros(n)) {
      ZerosMeans(n, p);
    }
  }

  lemma {:induction false} FilterParts(f: Bytes, k: Byte)
    ensures (f + [k])[..|f + [k]| - 1] == f && (f + [k])[|f + [k]| - 1] == k
  {
  }

  /** A key matches exactly when every bit it probes is probed by some key of the filter. */
  lemma {:induction false} FilterMatches(policy: Policy, keys: seq<Bytes>, key: Bytes)
    requires PolicyOk(policy)
    ensures var bits := 8 * FilterBytes(policy, |keys|);
            Matches(policy, key, Filter(policy, keys)) <==>
            KeyProbes(policy, key, bits) <= AllProbes(policy, keys, bits)
  {
    var n, h := FilterBytes(policy, |keys|), policy.hash(key);
    var f := MarkAll(policy, Zeros(n), keys);
    FilterParts(f, policy.k);
    AllSetMeans(f, h, Delta(h), policy.k);
    FilterBits(policy, keys, n);
  }

  lemma {:induction false} NoFalseNegatives(policy: Policy, keys: seq<Bytes>, key: Bytes)
    requires PolicyOk(policy) && key in keys
    ensures Matches(policy, key, Filter(policy, keys))
  {
    FilterMatches(policy, keys, key);
    KeyIsProbed(policy, keys, key, 8 * FilterBytes(policy, |keys|));
  }

  // ----- in the code's form -----

  method FilterSize(policy: Policy, n: nat) returns (bytes: nat)
    ensures bytes == FilterBytes(policy, n)
  {
    var bits := n * policy.bitsPerKey;
    if bits < 64 {
      bits := 64;
    }
    bytes := (bits + 7) / 8;
  }

  lemma {:induction false} MarkNext(policy: Policy, f: Bytes, keys: seq<Bytes>, i: nat)
    requires |f| > 0 && i < |keys|
    ensures MarkAll(policy, f, keys[..i + 1]) == MarkKey(policy, MarkAll(policy, f, keys[..i]), keys[i])
  {
    assert keys[..i + 1][..i] == keys[..i];
  }

  method MarkEach(policy: Policy, keys: seq<Bytes>, bytes: nat) returns (f: Bytes)
    requires bytes > 0
    ensures f == MarkAll(policy, Zeros(bytes), keys)
  {
    f := Zeros(bytes);
    assert keys[..0] == [];
    for i := 0 to |keys|
      invariant |f| == bytes && f == MarkAll(policy, Zeros(bytes), keys[..i])
    {
      MarkNext(policy, Zeros(bytes), keys, i);
      f := SetProbes(policy, keys[i], f);
    }
    assert keys[..|keys|] == keys;
  }

  method CreateFilter(policy: Policy, keys: seq<Bytes>, dst: Bytes) returns (result: Bytes)
    requires PolicyOk(policy)
    ensures result == dst + Filter(policy, keys)
  {
    var bytes := FilterSize(policy, |keys|);
    var f := MarkEach(policy, keys, bytes);
    result := dst + (f + [policy.k]);
  }

  method SetProbes(policy: Policy, key: Bytes, f0: Bytes) returns (f: Bytes)
    requires |f0| > 0
    ensures f == MarkKey(policy, f0, key)
  {
    f := f0;
    var bits := 8 * |f|;
    var h: Word := policy.hash(key);
    var delta := Delta(h);
    for j := 0 to policy.k
      invariant 8 * |f| == bits && Mark(f, h, delta, policy.k - j) == MarkKey(policy, f0, key)
    {
      var bitpos := BitPos(h, bits);
      f := SetBit(f, bitpos);
      h := Step(h, delta);
    }
  }

  method KeyMayMatch(policy: Policy, key: Bytes, filter: Bytes) returns (r: bool)
    ensures r == Matches(policy, key, filter)
  {
    var len := |filter|;
    if len < 2 {
      return false;
    }
    var bits := (len - 1) * 8;
    var k := filter[len - 1];
    if k > 30 {
      return true;
    }
    var h: Word := policy.hash(key);
    var delta := Delta(h);
    for j := 0 to k
      invariant Matches(policy, key, filter) == AllSet(filter[..len - 1], h, delta, k - j)
    {
      var bitpos := BitPos(h, bits);
      if !BitOf(filter[bitpos / 8], bitpos % 8) {
        return false;
      }
      h := Step(h, delta);
    }
    return true;
  }
}
