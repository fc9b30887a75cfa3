/** The Protocol Buffers wire format's numbers (nanopb: pb_encode, pb_decode): varints of 64 bits, varints that are read
    as 32 bits, zigzag, fixed widths; each with the lemma that it reads back as itself, whatever bytes follow. */
module PbWire {
  import opened Keys
  import opened Coding

  const MOD32 := 0x1_0000_0000
  const MOD64 := 0x1_0000_0000_0000_0000

  /** What a reader takes off the front of its stream, or that it fails. */
  datatype Read<T> = Fail | Got(value: T, rest: Bytes)

  // ----- varints -----

  /** Base 128, least significant group first; the top bit says that more bytes follow. */
  function Varint(v: nat): (b: Bytes)
    ensures |b| > 0
  {
    if v < 0x80 then [v] else [v % 0x80 + 0x80] + Varint(v / 0x80)
  }

  function Power(n: nat): (p: nat)
    ensures p > 0
  {
    if n == 0 then 1 else 0x80 * Power(n - 1)
  }

  lemma {:induction false} VarintLength(v: nat, n: nat)
    requires n > 0 && v < Power(n)
    ensures |Varint(v)| <= n
  {
    if v >= 0x80 {
      assert n > 1;
      assert v / 0x80 < Power(n - 1);
      VarintLength(v / 0x80, n - 1);
    }
  }

  /** pb_encode_varint: every byte gets the top bit, and then the last one loses it. */
  method EncodeVarint(value: nat) returns (buffer: Bytes)
    ensures buffer == Varint(value)
  {
    if value <= 0x7f {
      return [value];
    }
    var v: nat := value;
    buffer := [];
    while v > 0
      invariant v > 0 ==> Varint(value) == buffer + Varint(v)
      invariant v == 0 ==> |buffer| > 0 && buffer[|buffer| - 1] >= 0x80
      invariant v == 0 ==> Varint(value) == buffer[|buffer| - 1 := buffer[|buffer| - 1] - 0x80]
    {
      var byte: Byte := v % 0x80 + 0x80;
      if v >= 0x80 {
        NotLast(buffer, v, byte);
      } else {
        IsLast(buffer, v, byte);
      }
      buffer := buffer + [byte];
      v := v / 0x80;
    }
    buffer := buffer[|buffer| - 1 := buffer[|buffer| - 1] - 0x80];
  }

  lemma {:induction false} NotLast(done: Bytes, v: nat, byte: Byte)
    requires v >= 0x80 && byte == v % 0x80 + 0x80
    ensures done + Varint(v) == done + [byte] + Varint(v / 0x80)
  {
    JoinBytes(done, [byte], Varint(v / 0x80));
  }

  lemma {:induction false} IsLast(done: Bytes, v: nat, byte: Byte)
    requires v < 0x80 && byte == v + 0x80
    ensures var buffer := done + [byte];
            done + Varint(v) == buffer[|buffer| - 1 := buffer[|buffer| - 1] - 0x80]
  {
  }

  function Wrap64(x: nat): (r: nat)
    ensures r < MOD64
  {
    x % MOD64
  }

  lemma {:induction false} NoWrap64(x: nat)
    requires x < MOD64
    ensures Wrap64(x) == x
  {
  }

  /** Seven bits of a byte in their place. */
  function Placed(digit: nat, place: nat): nat {
    digit * place
  }

  /** pb_decode_varint from byte k on; what goes beyond 64 bits is lost, and an eleventh byte is an error. */
  function ReadGroups(s: Bytes, k: nat, result: nat): (r: Read<nat>)
    ensures r.Got? ==> |r.rest| < |s| && r.value < MOD64
    decreases |s|
  {
    if k >= 10 || s == [] then Fail
    else
      var sum := Wrap64(result + Placed(s[0] % 0x80, Power(k)));
      if s[0] >= 0x80 then ReadGroups(s[1..], k + 1, sum) else Got(sum, s[1..])
  }

  function Varint64(s: Bytes): (r: Read<nat>)
    ensures r.Got? ==> |r.rest| < |s| && r.value < MOD64
  {
    ReadGroups(s, 0, 0)
  }

  lemma {:induction false} SplitDigit(v: nat, p: nat)
    ensures v % 0x80 * p + v / 0x80 * (0x80 * p) == v * p
  {
    assert v == v % 0x80 + 0x80 * (v / 0x80);
    assert v * p == (v % 0x80 + 0x80 * (v / 0x80)) * p;
  }

  lemma {:induction false} AfterFirst(b: Byte, x: Bytes, rest: Bytes)
    ensures ([b] + x + rest)[1..] == x + rest && ([b] + x + rest)[0] == b
    ensures ([b] + rest)[1..] == rest && ([b] + rest)[0] == b
  {
  }

  /** The digits of v from place k on, with `low` made of those before. */
  lemma {:induction false} MoreDigits(s: Bytes, k: nat, result: nat, digit: nat, sum: nat)
    requires digit < 0x80 && s != [] && s[0] == digit + 0x80 && k < 10
    requires sum == result + Placed(digit, Power(k)) < MOD64
    ensures ReadGroups(s, k, result) == ReadGroups(s[1..], k + 1, sum)
  {
    NoWrap64(sum);
    assert s[0] % 0x80 == digit;
  }

  lemma {:induction false} LastDigit(s: Bytes, k: nat, result: nat, sum: nat)
    requires s != [] && s[0] < 0x80 && k < 10 && sum == result + Placed(s[0], Power(k)) < MOD64
    ensures ReadGroups(s, k, result) == Got(sum, s[1..])
  {
    NoWrap64(sum);
    assert s[0] % 0x80 == s[0];
  }

  lemma {:induction false} DigitStep(v: nat, p: nat, low: nat, m: nat)
    requires low + v * p < m
    ensures low + v % 0x80 * p < m && low + v % 0x80 * p + v / 0x80 * (0x80 * p) == low + v * p
  {
    SplitDigit(v, p);
    assert v / 0x80 * (0x80 * p) >= 0;
  }

  /** The digits of v from place k on, with `low` made of those before. */
  lemma {:induction false} ReadDigits(v: nat, k: nat, low: nat, rest: Bytes)
    requires k + |Varint(v)| <= 10 && low + v * Power(k) < MOD64
    ensures ReadGroups(Varint(v) + rest, k, low) == Got(low + v * Power(k), rest)
    decreases v
  {
    var p := Power(k);
    if v < 0x80 {
      AfterFirst(v, [], rest);
      LastDigit(Varint(v) + rest, k, low, low + v * p);
    } else {
      var digit, q := v % 0x80, v / 0x80;
      DigitStep(v, p, low, MOD64);
      var sum := low + digit * p;
      AfterFirst(digit + 0x80, Varint(q), rest);
      MoreDigits(Varint(v) + rest, k, low, digit, sum);
      ReadDigits(q, k + 1, sum, rest);
    }
  }

  lemma {:induction false} Varint64RoundTrip(v: nat, rest: Bytes)
    requires v < MOD64
    ensures Varint64(Varint(v) + rest) == Got(v, rest)
  {
    TenDigits();
    VarintLength(v, 10);
    ReadDigits(v, 0, 0, rest);
  }

  lemma {:induction false} TenDigits()
    ensures MOD64 <= Power(10)
  {
    assert Power(2) == 0x4000;
    assert Power(4) == 0x4000 * 0x4000;
    assert Power(6) == 0x4000 * 0x4000 * 0x4000;
    assert Power(8) == 0x4000 * 0x4000 * 0x4000 * 0x4000;
  }

  // ----- 32-bit varints -----

  /** A byte beyond 32 bits may only be a zero, or the sign bits of a negative number. */
  predicate Overflows(result: nat, bitpos: nat, byte: Byte) {
    byte % 0x80 != 0 && (result < 0x8000_0000 || byte != if bitpos < 63 then 0xff else 0x01)
  }

  /** pb_decode_varint32 behind its first byte; the position counter has eight bits. */
  function ReadMore(s: Bytes, bitpos: nat, result: nat): (r: Read<nat>)
    ensures r.Got? ==> |r.rest| < |s|
    decreases |s|
  {
    if s == [] || (bitpos >= 32 && Overflows(result, bitpos, s[0])) then Fail
    else
      var sum := if bitpos >= 32 then result else Wrap(result + Placed(s[0] % 0x80, TwoTo(bitpos)));
      var next := (bitpos + 7) % 256;
      if s[0] >= 0x80 then ReadMore(s[1..], next, sum)
      else if next == 35 && s[0] / 0x10 % 8 != 0 then Fail
      else Got(sum, s[1..])
  }

  function Varint32(s: Bytes): (r: Read<nat>)
    ensures r.Got? ==> |r.rest| < |s|
  {
    if s == [] then Fail
    else if s[0] < 0x80 then Got(s[0], s[1..])
    else ReadMore(s[1..], 7, s[0] % 0x80)
  }

  lemma {:induction false} SevenUp(k: nat)
    ensures TwoTo(k + 7) == 0x80 * TwoTo(k)
  {
    assert TwoTo(k + 7) == 2 * TwoTo(k + 6) == 4 * TwoTo(k + 5) == 8 * TwoTo(k + 4);
    assert TwoTo(k + 4) == 2 * TwoTo(k + 3) == 4 * TwoTo(k + 2) == 8 * TwoTo(k + 1);
  }

  lemma {:induction false} TwentyEight()
    ensures TwoTo(28) == 0x1000_0000
  {
    SevenUp(0);
    SevenUp(7);
    SevenUp(14);
    SevenUp(21);
  }

  lemma {:induction false} Bigger(v: nat, p: nat)
    requires v >= 1
    ensures v * p >= p
  {
  }

  /** A value that is left keeps the place within 32 bits. */
  lemma {:induction false} PlaceIsLow(v: nat, k: nat)
    requires 1 <= k <= 5 && v >= 1 && v * TwoTo(7 * k) < MOD32
    ensures k <= 4 && (k == 4 ==> v < 16)
  {
    TwentyEight();
    if k == 5 {
      SevenUp(28);
      Bigger(v, TwoTo(35));
    }
  }

  lemma {:induction false} MoreToCome(s: Bytes, bitpos: nat, result: nat, digit: nat, sum: nat)
    requires digit < 0x80 && s != [] && s[0] == digit + 0x80 && bitpos < 32
    requires sum == result + Placed(digit, TwoTo(bitpos)) < MOD32
    ensures ReadMore(s, bitpos, result) == ReadMore(s[1..], bitpos + 7, sum)
  {
    NoWrap(sum);
    assert s[0] % 0x80 == digit;
  }

  lemma {:induction false} LastByte(s: Bytes, bitpos: nat, result: nat, sum: nat)
    requires s != [] && s[0] < 0x80 && bitpos < 32 && (bitpos == 28 ==> s[0] < 16)
    requires sum == result + Placed(s[0], TwoTo(bitpos)) < MOD32
    ensures ReadMore(s, bitpos, result) == Got(sum, s[1..])
  {
    NoWrap(sum);
    assert s[0] % 0x80 == s[0];
  }

  lemma {:induction false} ReadMoreDigits(v: nat, k: nat, low: nat, rest: Bytes)
    requires 1 <= k <= 4 && v >= 1 && low + v * TwoTo(7 * k) < MOD32
    ensures ReadMore(Varint(v) + rest, 7 * k, low) == Got(low + v * TwoTo(7 * k), rest)
    decreases v
  {
    PlaceIsLow(v, k);
    var p := TwoTo(7 * k);
    if v < 0x80 {
      AfterFirst(v, [], rest);
      LastByte(Varint(v) + rest, 7 * k, low, low + v * p);
    } else {
      var digit, q := v % 0x80, v / 0x80;
      DigitStep(v, p, low, MOD32);
      SevenUp(7 * k);
      var sum := low + digit * p;
      AfterFirst(digit + 0x80, Varint(q), rest);
      MoreToCome(Varint(v) + rest, 7 * k, low, digit, sum);
      PlaceIsLow(q, k + 1);
      ReadMoreDigits(q, k + 1, sum, rest);
    }
  }

  lemma {:induction false} FirstSeven(v: nat)
    ensures v % 0x80 + v / 0x80 * TwoTo(7) == v
  {
    SevenUp(0);
  }

  lemma {:induction false} FirstOfMore(s: Bytes, digit: nat)
    requires digit < 0x80 && s != [] && s[0] == digit + 0x80
    ensures Varint32(s) == ReadMore(s[1..], 7, digit)
  {
    assert s[0] % 0x80 == digit;
  }

  lemma {:induction false} Varint32RoundTrip(v: nat, rest: Bytes)
    requires v < MOD32
    ensures Varint32(Varint(v) + rest) == Got(v, rest)
  {
    if v < 0x80 {
      AfterFirst(v, [], rest);
    } else {
      var digit, q := v % 0x80, v / 0x80;
      AfterFirst(digit + 0x80, Varint(q), rest);
      FirstOfMore(Varint(v) + rest, digit);
      FirstSeven(v);
      ReadMoreDigits(q, 1, digit, rest);
    }
  }

  // ----- signed numbers -----

  /** The two's complement of n in 64 bits. */
  function Unsigned(n: int): (u: nat)
    requires -0x8000_0000_0000_0000 <= n < MOD64
    ensures u < MOD64
  {
    if n < 0 then n + MOD64 else n
  }

  function Signed64(u: nat): int
    requires u < MOD64
  {
    if u < 0x8000_0000_0000_0000 then u else u - MOD64
  }

  function Signed32(u: nat): int {
    var low := u % MOD32;
    if low < 0x8000_0000 then low else low - MOD32
  }

  lemma {:induction false} SignedBack(n: int)
    requires -0x8000_0000_0000_0000 <= n < 0x8000_0000_0000_0000
    ensures Signed64(Unsigned(n)) == n
    ensures -0x8000_0000 <= n < 0x8000_0000 ==> Signed32(Unsigned(n)) == n
  {
  }

  function Zigzag(n: int): (u: nat)
    requires -0x8000_0000_0000_0000 <= n < 0x8000_0000_0000_0000
    ensures u < MOD64
  {
    if n < 0 then -2 * n - 1 else 2 * n
  }

  function Unzigzag(u: nat): int {
    if u % 2 == 1 then -(u / 2) - 1 else u / 2
  }

  lemma {:induction false} ZigzagRoundTrip(n: int)
    requires -0x8000_0000_0000_0000 <= n < 0x8000_0000_0000_0000
    ensures Unzigzag(Zigzag(n)) == n
  {
  }

  // ----- strings of bytes -----

  function Take(s: Bytes, n: nat): (r: Read<Bytes>)
    ensures r.Got? ==> |r.rest| + n == |s| && |r.value| == n
  {
    if |s| < n then Fail else Got(s[..n], s[n..])
  }

  lemma {:induction false} TakeBack(b: Bytes, rest: Bytes)
    ensures Take(b + rest, |b|) == Got(b, rest)
  {
    assert (b + rest)[..|b|] == b && (b + rest)[|b|..] == rest;
  }

  /** A length and so many bytes. */
  function Prefixed(b: Bytes): Bytes {
    Varint(|b|) + b
  }

  function TakePrefixed(s: Bytes): (r: Read<Bytes>)
    ensures r.Got? ==> |r.rest| + |r.value| < |s|
  {
    match Varint32(s)
    case Fail => Fail
    case Got(n, rest) => Take(rest, n)
  }

  lemma {:induction false} PrefixedBack(b: Bytes, rest: Bytes)
    requires |b| < MOD32
    ensures TakePrefixed(Prefixed(b) + rest) == Got(b, rest)
  {
    JoinBytes(Varint(|b|), b, rest);
    Varint32RoundTrip(|b|, b + rest);
    TakeBack(b, rest);
  }
}
