/** Fixed-width unsigned integers, their little-endian byte encodings (DumpU32,
    DumpU16, DumpOp) and the decimal formatting used in dump file names. */
module Encoding {

  type uint8 = x: int | 0 <= x < 0x100
  type uint16 = x: int | 0 <= x < 0x1_0000
  type uint32 = x: int | 0 <= x < 0x1_0000_0000

  /** The unsigned value of a byte string read least significant byte first. */
  function FromLe(bs: seq<uint8>): nat
  {
    if bs == [] then 0 else bs[0] + 0x100 * FromLe(bs[1..])
  }

  /** The bytes DumpU32 pushes: (x >> 0) & 0xff, (x >> 8) & 0xff, (x >> 16) & 0xff,
      (x >> 24) & 0xff. For an unsigned value, x >> k is x / 2^k. */
  function LeU32(x: uint32): (r: seq<uint8>)
    ensures |r| == 4 && FromLe(r) == x
  {
    var r := [x % 0x100, x / 0x100 % 0x100, x / 0x1_0000 % 0x100, x / 0x100_0000 % 0x100];
    LeU32Value(x);
    r
  }

  lemma LeU32Value(x: uint32)
    ensures var r := [x % 0x100, x / 0x100 % 0x100, x / 0x1_0000 % 0x100, x / 0x100_0000 % 0x100];
            FromLe(r) == x
  {
    var r := [x % 0x100, x / 0x100 % 0x100, x / 0x1_0000 % 0x100, x / 0x100_0000 % 0x100];
    var q1, q2, q3 := x / 0x100, x / 0x1_0000, x / 0x100_0000;
    assert q2 == q1 / 0x100 && q3 == q2 / 0x100;
    assert x == r[0] + 0x100 * q1;
    assert q1 == r[1] + 0x100 * q2;
    assert q2 == r[2] + 0x100 * q3;
    assert q3 == r[3];
    assert FromLe(r[3..]) == r[3] by { assert r[3..][1..] == []; }
    assert FromLe(r[2..]) == r[2] + 0x100 * r[3] by { assert r[2..][1..] == r[3..]; }
    assert FromLe(r[1..]) == r[1] + 0x100 * q2 by { assert r[1..][1..] == r[2..]; }
  }

  /** The bytes DumpU16 pushes: (x >> 0) & 0xff, (x >> 8) & 0xff. */
  function LeU16(x: uint16): (r: seq<uint8>)
    ensures |r| == 2 && FromLe(r) == x
  {
    var r := [x % 0x100, x / 0x100 % 0x100];
    assert FromLe(r[1..]) == r[1];
    r
  }

  /** ++ on a 32-bit unsigned value: wraps from 2^32 - 1 to 0. */
  function Inc32(x: uint32): (r: uint32)
    ensures r as int == (x as int + 1) % 0x1_0000_0000
  {
    if x == 0xFFFF_FFFF then 0 else x + 1
  }

  /** Reassembles four little-endian bytes; the inverse of LeU32. */
  function DecodeU32(bs: seq<uint8>): (x: uint32)
    requires |bs| == 4
    ensures LeU32(x) == bs
  {
    var x := bs[0] as int + 0x100 * (bs[1] as int + 0x100 * (bs[2] as int + 0x100 * bs[3] as int));
    LeU32Of(bs[0], bs[1], bs[2], bs[3]);
    x
  }

  lemma LeU32Of(b0: uint8, b1: uint8, b2: uint8, b3: uint8)
    ensures var x: int := b0 + 0x100 * (b1 + 0x100 * (b2 + 0x100 * b3));
            0 <= x < 0x1_0000_0000 && LeU32(x) == [b0, b1, b2, b3]
  {
    var x: int := b0 + 0x100 * (b1 + 0x100 * (b2 + 0x100 * b3));
    var q1: int := b1 + 0x100 * (b2 + 0x100 * b3);
    var q2: int := b2 + 0x100 * b3;
    assert x / 0x100 == q1 && x % 0x100 == b0;
    assert q1 / 0x100 == q2 && q1 % 0x100 == b1;
    assert q2 / 0x100 == b3 && q2 % 0x100 == b2;
    assert x / 0x1_0000 == q2;
    assert x / 0x100_0000 == b3;
  }

  /** Reassembles two little-endian bytes; the inverse of LeU16. */
  function DecodeU16(bs: seq<uint8>): (x: uint16)
    requires |bs| == 2
    ensures LeU16(x) == bs
  {
    var x := bs[0] as int + 0x100 * bs[1] as int;
    assert x / 0x100 == bs[1] && x % 0x100 == bs[0];
    x
  }

  /** LSB-first, both ways: decoding what LeU32 wrote gives the value back. */
  lemma DecodeLeU32(x: uint32)
    ensures DecodeU32(LeU32(x)) == x
  {
    assert FromLe(LeU32(DecodeU32(LeU32(x)))) == DecodeU32(LeU32(x));
  }

  lemma DecodeLeU16(x: uint16)
    ensures DecodeU16(LeU16(x)) == x
  {
    assert FromLe(LeU16(DecodeU16(LeU16(x)))) == DecodeU16(LeU16(x));
  }

  /** The bytes DumpOp pushes for a four-character tag. A C char converts to u8
      by keeping its low eight bits. */
  function OpBytes(tag: string): (r: seq<uint8>)
    requires |tag| == 4
    ensures |r| == 4
  {
    [tag[0] as int % 0x100, tag[1] as int % 0x100, tag[2] as int % 0x100, tag[3] as int % 0x100]
  }

  predicate IsDigit(c: char)
  {
    '0' <= c <= '9'
  }

  function DigitChar(d: nat): (c: char)
    requires d < 10
    ensures IsDigit(c) && DigitValue(c) == d
  {
    ('0' as int + d) as char
  }

  function DigitValue(c: char): nat
    requires IsDigit(c)
  {
    c as int - '0' as int
  }

  /** The decimal numeral printf writes for a non-negative integer. */
  function Decimal(n: nat): (r: string)
    ensures |r| >= 1 && forall i :: 0 <= i < |r| ==> IsDigit(r[i])
  {
    if n < 10 then [DigitChar(n)] else Decimal(n / 10) + [DigitChar(n % 10)]
  }

  /** The value of a string of decimal digits. */
  function DecimalValue(s: string): nat
    requires forall i :: 0 <= i < |s| ==> IsDigit(s[i])
  {
    if s == [] then 0 else 10 * DecimalValue(s[..|s| - 1]) + DigitValue(s[|s| - 1])
  }

  lemma {:induction false} DecimalRoundTrip(n: nat)
    ensures DecimalValue(Decimal(n)) == n
  {
    if n >= 10 {
      DecimalRoundTrip(n / 10);
      var r := Decimal(n);
      assert r[..|r| - 1] == Decimal(n / 10);
    }
  }

  /** printf's "%d" applied to a 32-bit unsigned argument: the bits are read as a
      two's-complement int, so values from 2^31 upwards print as negative numbers. */
  function FormatSigned(x: uint32): (r: string)
    ensures |r| >= 1
    ensures x < 0x8000_0000 <==> IsDigit(r[0])
    ensures x < 0x8000_0000 ==> (forall i :: 0 <= i < |r| ==> IsDigit(r[i])) && DecimalValue(r) == x
    ensures x >= 0x8000_0000 ==>
              && r[0] == '-' && (forall i :: 1 <= i < |r| ==> IsDigit(r[i]))
              && DecimalValue(r[1..]) == 0x1_0000_0000 - x
  {
    if x < 0x8000_0000 then
      DecimalRoundTrip(x);
      Decimal(x)
    else
      var d := Decimal(0x1_0000_0000 - x);
      DecimalRoundTrip(0x1_0000_0000 - x);
      assert ("-" + d)[1..] == d;
      "-" + d
  }

  /** Different values never print the same. */
  lemma FormatSignedInjective(a: uint32, b: uint32)
    requires FormatSigned(a) == FormatSigned(b)
    ensures a == b
  {
    if a < 0x8000_0000 && b < 0x8000_0000 {
      DecimalRoundTrip(a);
      DecimalRoundTrip(b);
    } else if a >= 0x8000_0000 && b >= 0x8000_0000 {
      assert FormatSigned(a)[1..] == Decimal(0x1_0000_0000 - a);
      assert FormatSigned(b)[1..] == Decimal(0x1_0000_0000 - b);
      DecimalRoundTrip(0x1_0000_0000 - a);
      DecimalRoundTrip(0x1_0000_0000 - b);
    }
  }
}
