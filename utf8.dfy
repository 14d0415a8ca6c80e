/**
 * UTF-8 as Python's codec reads and writes it: `bytes.decode('utf-8', errors='ignore')`
 * and `str.encode('utf-8')`.
 */
module Utf8 {
  import opened Wrappers

  type byte = b: int | 0 <= b < 256

  predicate IsCont(b: byte) {
    0x80 <= b <= 0xBF
  }

  /** The second byte allowed after a three-byte lead: no overlong forms, no surrogates. */
  predicate SecondOf3Ok(b0: int, b1: byte) {
    if b0 == 0xE0 then 0xA0 <= b1 <= 0xBF
    else if b0 == 0xED then 0x80 <= b1 <= 0x9F
    else IsCont(b1)
  }

  /** The second byte allowed after a four-byte lead: no overlong forms, nothing past U+10FFFF. */
  predicate SecondOf4Ok(b0: int, b1: byte) {
    if b0 == 0xF0 then 0x90 <= b1 <= 0xBF
    else if b0 == 0xF4 then 0x80 <= b1 <= 0x8F
    else IsCont(b1)
  }

  /** The well-formed sequence at the head of `b`, as its character and its length in bytes. */
  function HeadSequence(b: seq<byte>): (r: Option<(char, nat)>)
    requires |b| > 0
    ensures r.Some? ==> 1 <= r.value.1 <= |b|
  {
    var b0 := b[0] as int;
    if b0 < 0x80 then Some((b0 as char, 1))
    else if 0xC2 <= b0 <= 0xDF then
      if |b| >= 2 && IsCont(b[1])
      then Some((Value2(b0, b[1]) as char, 2))
      else None
    else if 0xE0 <= b0 <= 0xEF then
      if |b| >= 3 && SecondOf3Ok(b0, b[1]) && IsCont(b[2])
      then Some((Value3(b0, b[1], b[2]) as char, 3))
      else None
    else if 0xF0 <= b0 <= 0xF4 then
      if |b| >= 4 && SecondOf4Ok(b0, b[1]) && IsCont(b[2]) && IsCont(b[3])
      then Some((Value4(b0, b[1], b[2], b[3]) as char, 4))
      else None
    else None
  }

  /** The code point a two-byte sequence stands for. */
  function Value2(b0: int, b1: int): (n: int)
    requires 0xC2 <= b0 <= 0xDF && 0x80 <= b1 <= 0xBF
    ensures 0x80 <= n < 0x800
  {
    (b0 - 0xC0) * 64 + (b1 - 0x80)
  }

  /** The code point a three-byte sequence stands for: never a surrogate. */
  function Value3(b0: int, b1: int, b2: int): (n: int)
    requires 0xE0 <= b0 <= 0xEF && 0x80 <= b1 <= 0xBF && 0x80 <= b2 <= 0xBF
    requires b0 == 0xE0 ==> b1 >= 0xA0
    requires b0 == 0xED ==> b1 <= 0x9F
    ensures 0x800 <= n < 0xD800 || 0xE000 <= n < 0x10000
  {
    (b0 - 0xE0) * 4096 + (b1 - 0x80) * 64 + (b2 - 0x80)
  }

  /** The code point a four-byte sequence stands for. */
  function Value4(b0: int, b1: int, b2: int, b3: int): (n: int)
    requires 0xF0 <= b0 <= 0xF4 && 0x80 <= b1 <= 0xBF && 0x80 <= b2 <= 0xBF && 0x80 <= b3 <= 0xBF
    requires b0 == 0xF0 ==> b1 >= 0x90
    requires b0 == 0xF4 ==> b1 <= 0x8F
    ensures 0x10000 <= n < 0x110000
  {
    (b0 - 0xF0) * 262144 + (b1 - 0x80) * 4096 + (b2 - 0x80) * 64 + (b3 - 0x80)
  }

  /**
   * `b.decode('utf-8', errors='ignore')`. A byte that does not start a
   * well-formed sequence is dropped and decoding resumes at the next byte;
   * this drops the same bytes as Python, which skips the maximal ill-formed
   * prefix, because every byte of such a prefix after its first is a
   * continuation byte that cannot start a sequence either.
   */
  function DecodeIgnore(b: seq<byte>): (s: string)
    ensures |s| <= |b|
    decreases |b|
  {
    if |b| == 0 then ""
    else match HeadSequence(b)
      case Some((c, n)) => [c] + DecodeIgnore(b[n..])
      case None => DecodeIgnore(b[1..])
  }

  /** `c.encode('utf-8')`. */
  function EncodeChar(c: char): (b: seq<byte>)
    ensures 1 <= |b| <= 4
  {
    var n := c as int;
    if n < 0x80 then [n]
    else if n < 0x800 then [0xC0 + n / 64, 0x80 + n % 64]
    else if n < 0x10000 then [0xE0 + n / 4096, 0x80 + (n / 64) % 64, 0x80 + n % 64]
    else [0xF0 + n / 262144, 0x80 + (n / 4096) % 64, 0x80 + (n / 64) % 64, 0x80 + n % 64]
  }

  /** `s.encode('utf-8')`. */
  function Encode(s: string): seq<byte> {
    if |s| == 0 then [] else EncodeChar(s[0]) + Encode(s[1..])
  }

  lemma HeadOfEncodedChar(c: char, rest: seq<byte>)
    ensures HeadSequence(EncodeChar(c) + rest) == Some((c, |EncodeChar(c)|))
  {
    var n := c as int;
    if n < 0x80 {
    } else if n < 0x800 {
      Encoded2(n);
    } else if n < 0x10000 {
      Encoded3(n);
    } else {
      Encoded4(n);
    }
  }

  lemma Encoded2(n: int)
    requires 0x80 <= n < 0x800
    ensures 0xC2 <= 0xC0 + n / 64 <= 0xDF && 0x80 <= 0x80 + n % 64 <= 0xBF
    ensures Value2(0xC0 + n / 64, 0x80 + n % 64) == n
  {
  }

  lemma Encoded3(n: int)
    requires 0x800 <= n < 0x10000 && !(0xD800 <= n < 0xE000)
    ensures 0xE0 <= 0xE0 + n / 4096 <= 0xEF
    ensures SecondOf3Ok(0xE0 + n / 4096, 0x80 + (n / 64) % 64)
    ensures Value3(0xE0 + n / 4096, 0x80 + (n / 64) % 64, 0x80 + n % 64) == n
  {
    var q := n / 64;
    assert n / 4096 == q / 64;
    assert q == (q / 64) * 64 + q % 64;
    assert n == q * 64 + n % 64;
  }

  lemma Encoded4(n: int)
    requires 0x10000 <= n < 0x110000
    ensures 0xF0 <= 0xF0 + n / 262144 <= 0xF4
    ensures SecondOf4Ok(0xF0 + n / 262144, 0x80 + (n / 4096) % 64)
    ensures Value4(0xF0 + n / 262144, 0x80 + (n / 4096) % 64, 0x80 + (n / 64) % 64, 0x80 + n % 64) == n
  {
    var q := n / 64;
    var q2 := n / 4096;
    assert q2 == q / 64;
    assert n / 262144 == q2 / 64;
    assert q2 == (q2 / 64) * 64 + q2 % 64;
    assert q == q2 * 64 + q % 64;
    assert n == q * 64 + n % 64;
  }

  /** Decoding what Python encodes gives the text back. */
  lemma {:induction false} DecodeEncode(s: string)
    ensures DecodeIgnore(Encode(s)) == s
  {
    if |s| > 0 {
      var e := EncodeChar(s[0]);
      HeadOfEncodedChar(s[0], Encode(s[1..]));
      assert (e + Encode(s[1..]))[|e|..] == Encode(s[1..]);
      DecodeEncode(s[1..]);
    }
  }

  /** A byte that cannot start a sequence (a stray continuation byte, C0, C1 or F5 to FF) is dropped. */
  lemma DecodeDropsStrayByte(b: byte, rest: seq<byte>)
    requires 0x80 <= b <= 0xC1 || b >= 0xF5
    ensures DecodeIgnore([b] + rest) == DecodeIgnore(rest)
  {
    assert ([b] + rest)[1..] == rest;
  }

  /** ASCII bytes decode one character each, to the same code. */
  lemma {:induction false} DecodeAscii(b: seq<byte>)
    requires forall i :: 0 <= i < |b| ==> b[i] < 0x80
    ensures |DecodeIgnore(b)| == |b|
    ensures forall i :: 0 <= i < |b| ==> DecodeIgnore(b)[i] as int == b[i]
  {
    if |b| > 0 {
      DecodeAscii(b[1..]);
    }
  }
}
