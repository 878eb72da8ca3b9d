/**
 * The two 32-bit row fingerprints. Postgres takes the MD5 digest of the
 * canonical row text (an uninterpreted function here, returning the 32
 * lower-case hexadecimal digits of RFC 1321's 128-bit digest), reads its first
 * eight digits as a 32-bit string and casts that to a two's-complement `int`.
 * Oracle's `ORA_HASH(expr, 4294967295)` is an uninterpreted function into
 * 0 .. 2^32 - 1.
 */
module Fingerprint {

  const Two31: int := 0x8000_0000
  const Two32: int := 0x1_0000_0000

  /** A value of an unsigned 32-bit word. */
  type UInt32 = x: int | 0 <= x < 0x1_0000_0000

  /** A value of a two's-complement 32-bit `int`. */
  type Int32 = x: int | -0x8000_0000 <= x < 0x8000_0000

  predicate IsHexDigit(ch: char) {
    '0' <= ch <= '9' || 'a' <= ch <= 'f'
  }

  function HexDigitValue(ch: char): (v: nat)
    requires IsHexDigit(ch)
    ensures v < 16
  {
    if ch <= '9' then ch as int - '0' as int else ch as int - 'a' as int + 10
  }

  /** The text form of an MD5 digest: 32 lower-case hexadecimal digits. */
  type Md5Hex = s: string | |s| == 32 && forall i :: 0 <= i < |s| ==> IsHexDigit(s[i])
    witness "00000000000000000000000000000000"

  /** The digest function Postgres's `md5(text)` computes. */
  type Md5 = string -> Md5Hex

  /** The hash function `ORA_HASH(expr, 4294967295)` computes, with its whole range. */
  type OraHash = string -> UInt32

  function Pow16(n: nat): (p: nat)
    ensures p >= 1
  {
    if n == 0 then 1 else 16 * Pow16(n - 1)
  }

  predicate AllHex(s: string) {
    forall i :: 0 <= i < |s| ==> IsHexDigit(s[i])
  }

  /** The number a string of hexadecimal digits denotes, most significant digit first. */
  function HexValue(s: string): (v: nat)
    requires AllHex(s)
    ensures v < Pow16(|s|)
  {
    if s == [] then 0
    else
      var rest := HexValue(s[1..]);
      HexStep(HexDigitValue(s[0]), rest, Pow16(|s| - 1));
      HexDigitValue(s[0]) * Pow16(|s| - 1) + rest
  }

  lemma HexStep(d: nat, rest: nat, p: nat)
    requires d < 16 && rest < p
    ensures d * p + rest < 16 * p
  {
    assert d * p <= 15 * p;
  }

  /** The bit pattern of an unsigned 32-bit word read as a two's-complement `int`. */
  function ToInt32(u: UInt32): (i: Int32)
    ensures i == u <==> u < Two31
    ensures (i - u) % Two32 == 0
  {
    if u < Two31 then u else u - Two32
  }

  /** The first eight digits of a digest, the `bit(32)` value Postgres casts. */
  function Prefix8(d: Md5Hex): (u: UInt32)
  {
    assert AllHex(d[..8]);
    HexValue(d[..8])
  }

  /** `('x' || substr(md5(cat), 1, 8))::bit(32)::int` for a row whose canonical text is `row`. */
  function PgRowHash(md5: Md5, row: string): Int32 {
    ToInt32(Prefix8(md5(row)))
  }

  /** `ORA_HASH(cat, 4294967295)` for a row whose canonical text is `row`. */
  function OraRowHash(oraHash: OraHash, row: string): UInt32 {
    oraHash(row)
  }

  /** Eight hex digits fall below 2^31 exactly when the first is below 8. */
  lemma HighDigit(s: string)
    requires |s| == 8 && AllHex(s)
    ensures HexValue(s) < Two31 <==> HexDigitValue(s[0]) < 8
  {
    var d, rest := HexDigitValue(s[0]), HexValue(s[1..]);
    assert Pow16(7) == 0x1000_0000;
    assert HexValue(s) == d * 0x1000_0000 + rest;
    if d < 8 {
      assert d * 0x1000_0000 <= 7 * 0x1000_0000;
    } else {
      assert d * 0x1000_0000 >= 8 * 0x1000_0000;
    }
  }

  /**
   * The Postgres fingerprint is a signed 32-bit value and equals the digest
   * prefix's unsigned value exactly when the prefix's first digit is below 8;
   * otherwise it is that value less 2^32.
   */
  lemma PgRowHashSign(md5: Md5, row: string)
    ensures -Two31 <= PgRowHash(md5, row) < Two31
    ensures PgRowHash(md5, row) == Prefix8(md5(row)) <==> HexDigitValue(md5(row)[0]) < 8
    ensures PgRowHash(md5, row) < 0 <==> HexDigitValue(md5(row)[0]) >= 8
    ensures PgRowHash(md5, row) < 0 ==> PgRowHash(md5, row) == Prefix8(md5(row)) - Two32
  {
    var d := md5(row);
    assert d[..8][0] == d[0];
    HighDigit(d[..8]);
  }

  /** The Oracle fingerprint lies in 0 .. 2^32 - 1. */
  lemma OraRowHashRange(oraHash: OraHash, row: string)
    ensures 0 <= OraRowHash(oraHash, row) < Two32
  {
  }

  function Sum(xs: seq<int>): int {
    if xs == [] then 0 else xs[0] + Sum(xs[1..])
  }

  /** How many of the words have their top bit set. */
  function HighCount(us: seq<UInt32>): nat {
    if us == [] then 0 else (if us[0] >= Two31 then 1 else 0) + HighCount(us[1..])
  }

  function Signed(us: seq<UInt32>): (vs: seq<int>)
    ensures |vs| == |us|
    ensures forall k :: 0 <= k < |us| ==> vs[k] == ToInt32(us[k])
  {
    seq(|us|, k requires 0 <= k < |us| => ToInt32(us[k]) as int)
  }

  function Unsigned(us: seq<UInt32>): (vs: seq<int>)
    ensures |vs| == |us|
    ensures forall k :: 0 <= k < |us| ==> vs[k] == us[k]
  {
    seq(|us|, k requires 0 <= k < |us| => us[k] as int)
  }

  /**
   * Summing the signed readings loses 2^32 for every word whose top bit is
   * set, so the signed and unsigned sums of the same words agree exactly
   * when no word has its top bit set.
   */
  lemma {:induction false} SignedSum(us: seq<UInt32>)
    ensures Sum(Signed(us)) == Sum(Unsigned(us)) - Two32 * HighCount(us)
    ensures Sum(Signed(us)) == Sum(Unsigned(us)) <==> HighCount(us) == 0
  {
    if us != [] {
      SignedSum(us[1..]);
      assert Signed(us)[1..] == Signed(us[1..]);
      assert Unsigned(us)[1..] == Unsigned(us[1..]);
    }
  }
}
