/** 64-bit varints read as 32 bits (nanopb: pb_decode). Negative numbers are sent sign-extended, in ten bytes, of which
    the decoder keeps 32 bits and checks that the rest is the sign; others too big for 32 bits do not come through. */
module PbSigned {
  import opened Keys
  import opened Coding
  import opened PbWire

  lemma {:induction false} FirstByte(v: nat, rest: Bytes)
    ensures var s := Varint(v) + rest;
            if v < 0x80 then s[0] == v && s[1..] == rest
            else s[0] == v % 0x80 + 0x80 && s[1..] == Varint(v / 0x80) + rest
  {
    if v < 0x80 {
      assert (Varint(v) + rest)[1..] == rest;
    } else {
      assert (Varint(v) + rest)[1..] == Varint(v / 0x80) + rest;
    }
  }

  lemma {:induction false} MoreBits(s: Bytes, bitpos: nat, result: nat)
    requires s != [] && s[0] >= 0x80 && bitpos < 32
    ensures ReadMore(s, bitpos, result) ==
            ReadMore(s[1..], bitpos + 7, Wrap(result + Placed(s[0] % 0x80, TwoTo(bitpos))))
  {
  }

  lemma {:induction false} LowByte(v: nat, bitpos: nat, result: nat, rest: Bytes, sum: nat)
    requires v >= 0x80 && bitpos < 32 && sum == Wrap(result + Placed(v % 0x80, TwoTo(bitpos)))
    ensures ReadMore(Varint(v) + rest, bitpos, result) == ReadMore(Varint(v / 0x80) + rest, bitpos + 7, sum)
  {
    FirstByte(v, rest);
    MoreBits(Varint(v) + rest, bitpos, result);
    SameDigit(v);
  }

  lemma {:induction false} SameDigit(v: nat)
    ensures (v % 0x80 + 0x80) % 0x80 == v % 0x80
  {
  }

  lemma {:induction false} HighByte(v: nat, bitpos: nat, result: nat, rest: Bytes)
    requires v >= 0x80 && 32 <= bitpos < 63 && result >= 0x8000_0000 && v % 0x80 == 0x7f
    ensures ReadMore(Varint(v) + rest, bitpos, result) == ReadMore(Varint(v / 0x80) + rest, bitpos + 7, result)
  {
    FirstByte(v, rest);
  }

  /** The sign bits beyond the first five bytes. */
  lemma {:induction false} SignBits(result: nat, rest: Bytes)
    requires 0x8000_0000 <= result < MOD32
    ensures ReadMore(Varint(0x1fff_ffff) + rest, 35, result) == Got(result, rest)
  {
    HighByte(0x1fff_ffff, 35, result, rest);
    HighByte(0x3f_ffff, 42, result, rest);
    HighByte(0x7fff, 49, result, rest);
    HighByte(0xff, 56, result, rest);
    FirstByte(1, rest);
  }

  lemma {:induction false} Places()
    ensures TwoTo(7) == 0x80 && TwoTo(14) == 0x4000 && TwoTo(21) == 0x20_0000 && TwoTo(28) == 0x1000_0000
  {
    SevenUp(0);
    SevenUp(7);
    SevenUp(14);
    SevenUp(21);
  }

  /** The sum of five bytes, without what is beyond 32 bits. */
  lemma {:induction false} LowSum(v: nat, low: nat, sum: nat)
    requires low == v % 0x1000_0000 && sum == Wrap(low + Placed(v / 0x1000_0000 % 0x80, 0x1000_0000))
    ensures sum == v % MOD32
  {
    var q := v / 0x1000_0000;
    var d := q % 0x80;
    assert v == 0x1000_0000 * q + low && q == 0x80 * (q / 0x80) + d && d == 0x10 * (d / 0x10) + d % 0x10;
    var rest := 8 * (q / 0x80) + d / 0x10;
    assert low + d * 0x1000_0000 == MOD32 * (d / 0x10) + (low + d % 0x10 * 0x1000_0000);
    assert v == MOD32 * rest + (low + d % 0x10 * 0x1000_0000);
    assert low + d % 0x10 * 0x1000_0000 < MOD32;
  }

  /** The low bits, and seven more. */
  lemma {:induction false} Bits14(v: nat)
    ensures v % 0x4000 == v % 0x80 + v / 0x80 % 0x80 * 0x80
  {
    var a := v / 0x80;
    var low := v % 0x80 + a % 0x80 * 0x80;
    assert a == 0x80 * (a / 0x80) + a % 0x80 && v == 0x80 * a + v % 0x80;
    assert v == 0x4000 * (a / 0x80) + low && low < 0x4000;
  }

  lemma {:induction false} Bits21(v: nat)
    ensures v % 0x20_0000 == v % 0x4000 + v / 0x4000 % 0x80 * 0x4000
  {
    var a := v / 0x4000;
    var low := v % 0x4000 + a % 0x80 * 0x4000;
    assert a == 0x80 * (a / 0x80) + a % 0x80 && v == 0x4000 * a + v % 0x4000;
    assert v == 0x20_0000 * (a / 0x80) + low && low < 0x20_0000;
  }

  lemma {:induction false} Bits28(v: nat)
    ensures v % 0x1000_0000 == v % 0x20_0000 + v / 0x20_0000 % 0x80 * 0x20_0000
  {
    var a := v / 0x20_0000;
    var low := v % 0x20_0000 + a % 0x80 * 0x20_0000;
    assert a == 0x80 * (a / 0x80) + a % 0x80 && v == 0x20_0000 * a + v % 0x20_0000;
    assert v == 0x1000_0000 * (a / 0x80) + low && low < 0x1000_0000;
  }

  lemma {:induction false} LaterDigits(v: nat)
    ensures v / 0x80 / 0x80 == v / 0x4000 && v / 0x4000 / 0x80 == v / 0x20_0000
    ensures v / 0x20_0000 / 0x80 == v / 0x1000_0000
  {
  }

  lemma {:induction false} OneByte(v: nat, rest: Bytes)
    requires v >= 0x80
    ensures Varint32(Varint(v) + rest) == ReadMore(Varint(v / 0x80) + rest, 7, v % 0x80)
  {
    FirstByte(v, rest);
    FirstOfMore(Varint(v) + rest, v % 0x80);
  }

  lemma {:induction false} NextLow(v: nat, bitpos: nat, place: nat, low: nat, rest: Bytes, sum: nat)
    requires v >= 0x80 && bitpos < 32 && place == TwoTo(bitpos) && sum == low + v % 0x80 * place < MOD32
    ensures ReadMore(Varint(v) + rest, bitpos, low) == ReadMore(Varint(v / 0x80) + rest, bitpos + 7, sum)
  {
    NoWrap(sum);
    LowByte(v, bitpos, low, rest, sum);
  }

  lemma {:induction false} FourBytes(v: nat, rest: Bytes)
    requires v >= MOD32
    ensures Varint32(Varint(v) + rest) == ReadMore(Varint(v / 0x1000_0000) + rest, 28, v % 0x1000_0000)
  {
    Places();
    Bits14(v);
    Bits21(v);
    Bits28(v);
    LaterDigits(v);
    OneByte(v, rest);
    NextLow(v / 0x80, 7, 0x80, v % 0x80, rest, v % 0x4000);
    NextLow(v / 0x4000, 14, 0x4000, v % 0x4000, rest, v % 0x20_0000);
    NextLow(v / 0x20_0000, 21, 0x20_0000, v % 0x20_0000, rest, v % 0x1000_0000);
  }

  lemma {:induction false} FiveBytes(v: nat, rest: Bytes)
    requires v >= 0x8_0000_0000
    ensures Varint32(Varint(v) + rest) == ReadMore(Varint(v / 0x8_0000_0000) + rest, 35, v % MOD32)
  {
    var q, low := v / 0x1000_0000, v % 0x1000_0000;
    var sum := Wrap(low + Placed(q % 0x80, 0x1000_0000));
    FourBytes(v, rest);
    Places();
    LowSum(v, low, sum);
    LowByte(q, 28, low, rest, sum);
    assert q / 0x80 == v / 0x8_0000_0000;
  }

  lemma {:induction false} NegativeParts(n: int)
    requires -0x8000_0000 <= n < 0
    ensures var v := Unsigned(n);
            v >= 0x8_0000_0000 && v / 0x8_0000_0000 == 0x1fff_ffff && v % MOD32 == MOD32 + n
  {
  }

  /** Negative numbers of 32 bits may be sent with 64. */
  lemma {:induction false} NegativeBack(n: int, rest: Bytes)
    requires -0x8000_0000 <= n < 0
    ensures Varint32(Varint(Unsigned(n)) + rest) == Got(MOD32 + n, rest)
  {
    NegativeParts(n);
    FiveBytes(Unsigned(n), rest);
    SignBits(MOD32 + n, rest);
  }

  lemma {:induction false} FewerBits(v: nat, p: nat)
    requires v < 0x80 * p
    ensures v / 0x80 < p
  {
  }

  /** From the sixth byte on, a number that does not end in a sign bit is rejected. */
  lemma {:induction false} TooLong(v: nat, bitpos: nat, result: nat, rest: Bytes)
    requires v >= 1 && bitpos in {35, 42, 49, 56} && v < TwoTo(63 - bitpos)
    ensures ReadMore(Varint(v) + rest, bitpos, result) == Fail
    decreases v
  {
    FirstByte(v, rest);
    SevenUp(56 - bitpos);
    FewerBits(v, TwoTo(56 - bitpos));
    if v >= 0x80 {
      TooLong(v / 0x80, bitpos + 7, result, rest);
    }
  }

  lemma {:induction false} FifthIsLast(q: nat, low: nat, rest: Bytes)
    requires 0x10 <= q < 0x80
    ensures ReadMore(Varint(q) + rest, 28, low) == Fail
  {
    FirstByte(q, rest);
  }

  /** A number with more than 32 bits that is not negative is no 32-bit number. */
  lemma {:induction false} TooBig(v: nat, rest: Bytes)
    requires MOD32 <= v < 0x8000_0000_0000_0000
    ensures Varint32(Varint(v) + rest) == Fail
  {
    if v < 0x8_0000_0000 {
      FourBytes(v, rest);
      FifthIsLast(v / 0x1000_0000, v % 0x1000_0000, rest);
    } else {
      FiveBytes(v, rest);
      Places();
      TooLong(v / 0x8_0000_0000, 35, v % MOD32, rest);
    }
  }
}
