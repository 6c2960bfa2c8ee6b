/**
 * UTF-8 as Python's codec applies it: `bytes.decode('utf-8', errors='ignore')` keeps every
 * well-formed sequence (Table 3-7 of the Unicode Standard: no overlong forms, no surrogates,
 * nothing above U+10FFFF) and drops every byte that does not start one.  `Encode` is
 * `str.encode('utf-8')`, the inverse used to state what the decoder preserves.
 */
module Utf8 {

  newtype byte = x: int | 0 <= x < 256

  predicate IsContinuation(b: byte) {
    0x80 <= b <= 0xBF
  }

  /** The ranges allowed for the second byte of a three-byte sequence. */
  predicate SecondOfThree(b0: byte, b1: byte) {
    if b0 == 0xE0 then 0xA0 <= b1 <= 0xBF
    else if b0 == 0xED then 0x80 <= b1 <= 0x9F
    else IsContinuation(b1)
  }

  /** The ranges allowed for the second byte of a four-byte sequence. */
  predicate SecondOfFour(b0: byte, b1: byte) {
    if b0 == 0xF0 then 0x90 <= b1 <= 0xBF
    else if b0 == 0xF4 then 0x80 <= b1 <= 0x8F
    else IsContinuation(b1)
  }

  /** The length of the well-formed sequence that starts `b`, or 0 when `b` does not start
      with one. */
  function WellFormedPrefix(b: seq<byte>): (n: nat)
    ensures n <= |b| && n <= 4
  {
    if |b| == 0 then 0
    else if b[0] < 0x80 then 1
    else if 0xC2 <= b[0] <= 0xDF then
      (if |b| >= 2 && IsContinuation(b[1]) then 2 else 0)
    else if 0xE0 <= b[0] <= 0xEF then
      (if |b| >= 3 && SecondOfThree(b[0], b[1]) && IsContinuation(b[2]) then 3 else 0)
    else if 0xF0 <= b[0] <= 0xF4 then
      (if |b| >= 4 && SecondOfFour(b[0], b[1]) && IsContinuation(b[2]) && IsContinuation(b[3])
       then 4 else 0)
    else 0
  }

  predicate IsScalar(v: int) {
    0 <= v < 0xD800 || 0xE000 <= v < 0x110000
  }

  /** The code point a well-formed sequence of length `n` at the start of `b` denotes; it is
      always a Unicode scalar value, so it is a Dafny `char`. */
  function ScalarValue(b: seq<byte>, n: nat): (v: int)
    requires n == WellFormedPrefix(b) && n > 0
    ensures IsScalar(v)
  {
    if n == 1 then b[0] as int
    else if n == 2 then (b[0] as int - 0xC0) * 64 + (b[1] as int - 0x80)
    else if n == 3 then
      (b[0] as int - 0xE0) * 4096 + (b[1] as int - 0x80) * 64 + (b[2] as int - 0x80)
    else
      (b[0] as int - 0xF0) * 262144 + (b[1] as int - 0x80) * 4096
      + (b[2] as int - 0x80) * 64 + (b[3] as int - 0x80)
  }

  /** `b.decode('utf-8', errors='ignore')`. */
  function Decode(b: seq<byte>): (s: string)
    ensures |s| <= |b|
    decreases |b|
  {
    if b == [] then []
    else
      var n := WellFormedPrefix(b);
      if n == 0 then Decode(b[1..])
      else [ScalarValue(b, n) as char] + Decode(b[n..])
  }

  /** `c.encode('utf-8')`. */
  function EncodeChar(c: char): seq<byte> {
    var n := c as int;
    if n < 0x80 then [n as byte]
    else if n < 0x800 then [(0xC0 + n / 64) as byte, (0x80 + n % 64) as byte]
    else if n < 0x10000 then
      [(0xE0 + n / 4096) as byte, (0x80 + (n / 64) % 64) as byte, (0x80 + n % 64) as byte]
    else
      [(0xF0 + n / 262144) as byte, (0x80 + (n / 4096) % 64) as byte,
       (0x80 + (n / 64) % 64) as byte, (0x80 + n % 64) as byte]
  }

  /** `s.encode('utf-8')`. */
  function Encode(s: string): seq<byte> {
    if s == [] then [] else EncodeChar(s[0]) + Encode(s[1..])
  }

  lemma EncodeTwo(c: char, rest: seq<byte>)
    requires 0x80 <= c as int < 0x800
    ensures var b := EncodeChar(c) + rest;
      WellFormedPrefix(b) == 2 && ScalarValue(b, 2) == c as int
  {
    var n := c as int;
    assert 2 <= n / 64 <= 31;
  }

  lemma EncodeThree(c: char, rest: seq<byte>)
    requires 0x800 <= c as int < 0x10000
    ensures var b := EncodeChar(c) + rest;
      WellFormedPrefix(b) == 3 && ScalarValue(b, 3) == c as int
  {
    var n := c as int;
    var hi, mid, lo := n / 4096, (n / 64) % 64, n % 64;
    assert n == hi * 4096 + mid * 64 + lo;
    assert hi <= 15;
    assert hi == 0 ==> mid >= 0x20;
    assert hi == 0xD ==> mid < 0x20;
  }

  lemma EncodeFour(c: char, rest: seq<byte>)
    requires 0x10000 <= c as int
    ensures var b := EncodeChar(c) + rest;
      WellFormedPrefix(b) == 4 && ScalarValue(b, 4) == c as int
  {
    var n := c as int;
    var top, hi, mid, lo := n / 262144, (n / 4096) % 64, (n / 64) % 64, n % 64;
    FourDigits(n);
    var b := EncodeChar(c) + rest;
    assert b[0] as int == 0xF0 + top && b[1] as int == 0x80 + hi;
    assert b[2] as int == 0x80 + mid && b[3] as int == 0x80 + lo;
    assert SecondOfFour(b[0], b[1]);
  }

  /** The base-64 digits of a supplementary code point. */
  lemma FourDigits(n: int)
    requires 0x10000 <= n < 0x110000
    ensures var top, hi, mid, lo := n / 262144, (n / 4096) % 64, (n / 64) % 64, n % 64;
      && n == top * 262144 + hi * 4096 + mid * 64 + lo
      && 0 <= top <= 4 && 0 <= hi < 64 && 0 <= mid < 64 && 0 <= lo < 64
      && (top == 0 ==> hi >= 0x10) && (top == 4 ==> hi < 0x10)
  {
    var q1, q2, top := n / 64, n / 4096, n / 262144;
    assert n == q1 * 64 + n % 64;
    assert q1 == q2 * 64 + q1 % 64;
    assert q2 == top * 64 + q2 % 64;
  }

  /** The decoder reads an encoded character back as one well-formed sequence. */
  lemma EncodeCharDecodes(c: char, rest: seq<byte>)
    ensures var b, n := EncodeChar(c) + rest, |EncodeChar(c)|;
      WellFormedPrefix(b) == n && n > 0 && ScalarValue(b, n) == c as int
  {
    var n := c as int;
    if n < 0x80 {
    } else if n < 0x800 {
      EncodeTwo(c, rest);
    } else if n < 0x10000 {
      EncodeThree(c, rest);
    } else {
      EncodeFour(c, rest);
    }
  }

  /** Decoding with `errors='ignore'` loses nothing of well-formed input: it inverts the
      encoder. */
  lemma {:induction false} DecodeEncode(s: string)
    ensures Decode(Encode(s)) == s
  {
    if s != [] {
      var head, rest := EncodeChar(s[0]), Encode(s[1..]);
      var b := head + rest;
      EncodeCharDecodes(s[0], rest);
      assert b[|head|..] == rest;
      DecodeEncode(s[1..]);
      assert [s[0]] + s[1..] == s;
    }
  }
}
