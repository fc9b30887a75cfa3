/** Fixed-width and variable-width integers, length-prefixed slices, and the checksum mask (util/coding, util/crc32c);
    every encoding with the lemma that it reads back as itself, whatever bytes come after it. */
module Coding {
  import opened Keys

  type Word = w: int | 0 <= w < 0x1_0000_0000

  function Fixed32(v: Word): (b: Bytes)
    ensures |b| == 4
  {
    [v % 256, v / 0x100 % 256, v / 0x1_0000 % 256, v / 0x100_0000]
  }

  function DecodeFixed32(b: Bytes): Word
    requires |b| == 4
  {
    b[0] as int + b[1] as int * 0x100 + b[2] as int * 0x1_0000 + b[3] as int * 0x100_0000
  }

  lemma {:induction false} Fixed32RoundTrip(v: Word)
    ensures DecodeFixed32(Fixed32(v)) == v
  {
    var w := v / 0x100;
    var x := w / 0x100;
    assert v / 0x1_0000 == x && v / 0x100_0000 == x / 0x100;
    assert v == v % 0x100 + 0x100 * w && w == w % 0x100 + 0x100 * x && x == x % 0x100 + 0x100 * (x / 0x100);
  }

  function Fixed64(v: nat): (b: Bytes)
    requires v < 0x1_0000_0000_0000_0000
    ensures |b| == 8
  {
    Fixed32(v % 0x1_0000_0000) + Fixed32(v / 0x1_0000_0000)
  }

  function DecodeFixed64(b: Bytes): nat
    requires |b| == 8
  {
    DecodeFixed32(b[..4]) + DecodeFixed32(b[4..]) * 0x1_0000_0000
  }

  lemma {:induction false} Fixed64RoundTrip(v: nat)
    requires v < 0x1_0000_0000_0000_0000
    ensures DecodeFixed64(Fixed64(v)) == v
  {
    Fixed32RoundTrip(v % 0x1_0000_0000);
    Fixed32RoundTrip(v / 0x1_0000_0000);
    assert Fixed64(v)[..4] == Fixed32(v % 0x1_0000_0000) && Fixed64(v)[4..] == Fixed32(v / 0x1_0000_0000);
  }

  const MASK_DELTA: Word := 0xa282ead8

  /** crc32c::Mask: rotate right by 15 bits and add a constant. */
  function Mask(crc: Word): Word {
    (crc / 0x8000 + crc % 0x8000 * 0x2_0000 + MASK_DELTA) % 0x1_0000_0000
  }

  function Unmask(masked: Word): Word {
    var rot := (masked - MASK_DELTA) % 0x1_0000_0000;
    rot / 0x2_0000 + rot % 0x2_0000 * 0x8000
  }

  lemma {:induction false} UnmaskMask(crc: Word)
    ensures Unmask(Mask(crc)) == crc
  {
    var rot := crc / 0x8000 + crc % 0x8000 * 0x2_0000;
    assert (Mask(crc) - MASK_DELTA) % 0x1_0000_0000 == rot;
    assert rot / 0x2_0000 == crc % 0x8000 && rot % 0x2_0000 == crc / 0x8000;
  }

  // ----- variable-width integers -----

  /** Seven bits to a byte, least significant first; the top bit says that more bytes follow. */
  function EncodeVarint32(v: Word): (b: Bytes)
    ensures |b| == VarintLength(v)
  {
    if v < 0x80 then [v] else [v % 0x80 + 0x80] + EncodeVarint32(v / 0x80)
  }

  function VarintLength(v: Word): (n: nat)
    ensures n >= 1
  {
    if v < 0x80 then 1 else 1 + VarintLength(v / 0x80)
  }

  lemma {:induction false} AtMostFive(v: Word)
    ensures VarintLength(v) <= 5
  {
    if v >= 0x1000_0000 {
      assert v / 0x80 / 0x80 / 0x80 / 0x80 < 0x80;
      assert VarintLength(v / 0x80 / 0x80 / 0x80 / 0x80) == 1;
      assert VarintLength(v / 0x80 / 0x80) == 3;
    } else if v >= 0x4000 {
      assert v / 0x80 / 0x80 / 0x80 < 0x80;
      assert VarintLength(v / 0x80 / 0x80) <= 2;
    } else {
      assert v / 0x80 < 0x80;
    }
  }

  datatype Parsed = Failed | Parsed(value: Word, next: nat)

  /** 1 << shift for the k-th byte. */
  function Weight(k: nat): nat {
    if k == 0 then 1 else if k == 1 then 0x80 else if k == 2 then 0x4000 else if k == 3 then 0x20_0000 else 0x1000_0000
  }

  /** Reads on from byte k, with `result` made of the bytes before; what goes beyond 32 bits is lost. */
  function ReadVarint(data: Bytes, p: nat, limit: nat, k: nat, result: Word): Parsed
    requires limit <= |data|
    decreases 5 - k
  {
    if k > 4 || p >= limit then Failed
    else
      var byte := data[p];
      var sum := Wrap(result + byte % 0x80 * Weight(k));
      if byte >= 0x80 then ReadVarint(data, p + 1, limit, k + 1, sum) else Parsed(sum, p + 1)
  }

  function GetVarint32(data: Bytes, p: nat, limit: nat): Parsed
    requires limit <= |data|
  {
    ReadVarint(data, p, limit, 0, 0)
  }

  /** Nothing is read from the limit on. */
  lemma {:induction false} WithinLimit(data: Bytes, p: nat, limit: nat, k: nat, result: Word)
    requires limit <= |data|
    ensures var r := ReadVarint(data, p, limit, k, result); r.Parsed? ==> p < r.next <= limit && r.next <= p + 5
    ensures forall other: Bytes :: limit <= |other| && other[..limit] == data[..limit] ==>
              ReadVarint(other, p, limit, k, result) == ReadVarint(data, p, limit, k, result)
    decreases 5 - k
  {
    if k <= 4 && p < limit {
      forall other: Bytes | limit <= |other| && other[..limit] == data[..limit] ensures other[p] == data[p] {
        assert other[..limit][p] == data[..limit][p];
      }
      WithinLimit(data, p + 1, limit, k + 1, Wrap(result + data[p] % 0x80 * Weight(k)));
    }
  }

  method GetVarint32Ptr(data: Bytes, start: nat, limit: nat) returns (r: Parsed)
    requires limit <= |data|
    ensures r == GetVarint32(data, start, limit)
  {
    var result: Word, p: nat, k: nat := 0, start, 0;
    while k <= 4 && p < limit
      invariant k <= 5 && GetVarint32(data, start, limit) == ReadVarint(data, p, limit, k, result)
    {
      var byte := data[p];
      p := p + 1;
      result := Wrap(result + byte % 0x80 * Weight(k));
      if byte < 0x80 {
        return Parsed(result, p);
      }
      k := k + 1;
    }
    return Failed;
  }

  /** The bytes of b stand at p. */
  ghost predicate StandsAt(data: Bytes, p: nat, b: Bytes) {
    p + |b| <= |data| && data[p..p + |b|] == b
  }

  lemma {:induction false} ByteAt(data: Bytes, p: nat, b: Bytes, i: nat)
    requires StandsAt(data, p, b) && i < |b|
    ensures data[p + i] == b[i]
  {
    assert data[p..p + |b|][i] == b[i];
  }

  /** The low 7 * k bits. */
  function Low(v: Word, k: nat): Word {
    if k == 0 then 0 else if k == 1 then v % 0x80 else if k == 2 then v % 0x4000 else if k == 3 then v % 0x20_0000
    else if k == 4 then v % 0x1000_0000 else v
  }

  lemma {:induction false} Digit1(v: Word)
    ensures v % 0x80 + v / 0x80 % 0x80 * 0x80 == v % 0x4000
  {
    var w := v / 0x80;
    assert v == v % 0x80 + 0x80 * w && w == w % 0x80 + 0x80 * (w / 0x80);
    assert v == v % 0x4000 + 0x4000 * (v / 0x4000) && w / 0x80 == v / 0x4000;
  }

  lemma {:induction false} Digit2(v: Word)
    ensures v % 0x4000 + v / 0x4000 % 0x80 * 0x4000 == v % 0x20_0000
  {
    var w := v / 0x4000;
    assert v == v % 0x4000 + 0x4000 * w && w == w % 0x80 + 0x80 * (w / 0x80);
    assert v == v % 0x20_0000 + 0x20_0000 * (v / 0x20_0000) && w / 0x80 == v / 0x20_0000;
  }

  lemma {:induction false} Digit3(v: Word)
    ensures v % 0x20_0000 + v / 0x20_0000 % 0x80 * 0x20_0000 == v % 0x1000_0000
  {
    var w := v / 0x20_0000;
    assert v == v % 0x20_0000 + 0x20_0000 * w && w == w % 0x80 + 0x80 * (w / 0x80);
    assert v == v % 0x1000_0000 + 0x1000_0000 * (v / 0x1000_0000) && w / 0x80 == v / 0x1000_0000;
  }

  lemma {:induction false} Digit4(v: Word)
    ensures v % 0x1000_0000 + v / 0x1000_0000 % 0x80 * 0x1000_0000 == v
  {
    assert v / 0x1000_0000 < 0x80;
  }

  function Wrap(x: nat): Word {
    x % 0x1_0000_0000
  }

  lemma {:induction false} NoWrap(x: nat)
    requires x < 0x1_0000_0000
    ensures Wrap(x) == x
  {
  }

  /** The k-th byte brings the k-th group of seven bits. */
  lemma {:induction false} Digit(v: Word, k: nat, digit: nat)
    requires k <= 4 && digit == v / Weight(k) % 0x80
    ensures Wrap(Low(v, k) + digit * Weight(k)) == Low(v, k + 1)
  {
    if k == 0 {
      assert digit == v % 0x80;
    } else if k == 1 {
      Digit1(v);
    } else if k == 2 {
      Digit2(v);
    } else if k == 3 {
      Digit3(v);
    } else {
      Digit4(v);
    }
    assert Low(v, k) + digit * Weight(k) == Low(v, k + 1);
    NoWrap(Low(v, k + 1));
  }

  lemma {:induction false} Divides(v: Word, k: nat)
    requires k <= 3
    ensures v / 0x80 / Weight(k) == v / Weight(k + 1)
  {
    if k == 0 {
      assert v / 0x80 / 1 == v / 0x80;
    } else if k == 1 {
      assert v / 0x80 / 0x80 == v / 0x4000;
    } else if k == 2 {
      assert v / 0x80 / 0x4000 == v / 0x20_0000;
    } else {
      assert v / 0x80 / 0x20_0000 == v / 0x1000_0000;
    }
  }

  /** What fits into n groups of seven bits. */
  function Limit(n: nat): nat {
    if n >= 5 then 0x1_0000_0000 else Weight(n)
  }

  lemma {:induction false} SevenMore(v: Word, n: nat)
    requires 1 <= n <= 4 && v / 0x80 < Limit(n)
    ensures v < Limit(n + 1)
  {
  }

  lemma {:induction false} LengthLimits(v: Word)
    ensures VarintLength(v) <= 5 && v < Limit(VarintLength(v))
  {
    AtMostFive(v);
    if v >= 0x80 {
      LengthLimits(v / 0x80);
      SevenMore(v, VarintLength(v / 0x80));
    }
  }

  lemma {:induction false} SmallMod(v: nat, m: nat)
    requires v < m
    ensures v % m == v
  {
  }

  lemma {:induction false} LowIsAll(v: Word)
    ensures Low(v, VarintLength(v)) == v
  {
    LengthLimits(v);
    SmallMod(v, Limit(VarintLength(v)));
  }

  lemma {:induction false} EncodedByte(v: Word, k: nat)
    requires k < VarintLength(v)
    ensures k <= 4 && EncodeVarint32(v)[k] % 0x80 == v / Weight(k) % 0x80
    ensures EncodeVarint32(v)[k] >= 0x80 <==> k + 1 < VarintLength(v)
  {
    if k > 0 {
      AtMostFive(v);
      EncodedByte(v / 0x80, k - 1);
      Divides(v, k - 1);
    }
  }

  /** Reading from byte k on, with the bytes before it taken in. */
  lemma {:induction false} ReadsFrom(data: Bytes, p: nat, limit: nat, v: Word, k: nat)
    requires StandsAt(data, p, EncodeVarint32(v)) && p + |EncodeVarint32(v)| <= limit <= |data|
    requires k < |EncodeVarint32(v)|
    ensures ReadVarint(data, p + k, limit, k, Low(v, k)) == Parsed(v, p + |EncodeVarint32(v)|)
    decreases |EncodeVarint32(v)| - k
  {
    ByteAt(data, p, EncodeVarint32(v), k);
    EncodedByte(v, k);
    Digit(v, k, data[p + k] % 0x80);
    if k + 1 < |EncodeVarint32(v)| {
      ReadsFrom(data, p, limit, v, k + 1);
    } else {
      LowIsAll(v);
    }
  }

  lemma {:induction false} VarintRoundTrip(data: Bytes, p: nat, limit: nat, v: Word)
    requires StandsAt(data, p, EncodeVarint32(v)) && p + |EncodeVarint32(v)| <= limit <= |data|
    ensures GetVarint32(data, p, limit) == Parsed(v, p + |EncodeVarint32(v)|)
  {
    ReadsFrom(data, p, limit, v, 0);
  }

  // ----- bits -----

  /** Bit i of a number, the least significant first. */
  predicate BitOf(b: nat, i: nat) {
    if i == 0 then b % 2 == 1 else BitOf(b / 2, i - 1)
  }

  /** b | (1 << i). */
  function WithBit(b: nat, i: nat): nat {
    if i == 0 then (if b % 2 == 1 then b else b + 1) else 2 * WithBit(b / 2, i - 1) + b % 2
  }

  lemma {:induction false} WithBitMeans(b: nat, i: nat, j: nat)
    ensures BitOf(WithBit(b, i), j) <==> j == i || BitOf(b, j)
  {
    if i > 0 && j > 0 {
      WithBitMeans(b / 2, i - 1, j - 1);
    }
  }

  function TwoTo(n: nat): (p: nat)
    ensures p > 0
  {
    if n == 0 then 1 else 2 * TwoTo(n - 1)
  }

  lemma {:induction false} Halved(b: nat, m: nat)
    requires b < 2 * m
    ensures b / 2 < m && (b % 2 == 0 ==> b + 1 < 2 * m)
  {
  }

  lemma {:induction false} Doubled(x: nat, bit: nat, m: nat)
    requires x < m && bit < 2
    ensures 2 * x + bit < 2 * m
  {
  }

  lemma {:induction false} WithBitFits(b: nat, i: nat, n: nat)
    requires i < n && b < TwoTo(n)
    ensures WithBit(b, i) < TwoTo(n)
  {
    var m := TwoTo(n - 1);
    Halved(b, m);
    if i > 0 {
      WithBitFits(b / 2, i - 1, n - 1);
      Doubled(WithBit(b / 2, i - 1), b % 2, m);
    }
  }

  lemma {:induction false} NoBits(i: nat)
    ensures !BitOf(0, i)
  {
    if i > 0 {
      NoBits(i - 1);
    }
  }
}
