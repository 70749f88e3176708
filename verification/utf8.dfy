/**
  UTF-8 as Node uses it: `Buffer.from(string)` encodes every code point in
  one to four bytes, and `buf.toString('utf8')` decodes with the WHATWG rule
  that replaces each maximal ill-formed subpart by U+FFFD.
*/
module Utf8 {
  import opened Wrappers
  import opened JsObject

  const Replacement: char := 0xFFFD as char

  function EncodeChar(c: char): (b: Bytes)
    ensures 1 <= |b| <= 4
  {
    var n := c as int;
    if n < 0x80 then [n]
    else if n < 0x800 then [0xC0 + n / 64, 0x80 + n % 64]
    else if n < 0x10000 then [0xE0 + n / 4096, 0x80 + n / 64 % 64, 0x80 + n % 64]
    else [0xF0 + n / 262144, 0x80 + n / 4096 % 64, 0x80 + n / 64 % 64, 0x80 + n % 64]
  }

  /** `Buffer.from(s)`. */
  function Encode(s: string): (b: Bytes)
    ensures |s| <= |b| <= 4 * |s|
  {
    if |s| == 0 then [] else EncodeChar(s[0]) + Encode(s[1..])
  }

  lemma {:induction false} EncodeAppend(a: string, b: string)
    ensures Encode(a + b) == Encode(a) + Encode(b)
    decreases |a|
  {
    if |a| > 0 {
      assert (a + b)[1..] == a[1..] + b;
      EncodeAppend(a[1..], b);
    } else {
      assert a + b == b;
    }
  }

  predicate IsContinuation(x: byte) {
    0x80 <= x <= 0xBF
  }

  /** The number of continuation bytes a lead byte announces, or -1 for a byte that cannot lead. */
  function Needed(lead: byte): int {
    if lead < 0x80 then 0
    else if 0xC2 <= lead <= 0xDF then 1
    else if 0xE0 <= lead <= 0xEF then 2
    else if 0xF0 <= lead <= 0xF4 then 3
    else -1
  }

  /** The range the first continuation byte must fall in, excluding overlong forms, surrogates and code points past U+10FFFF. */
  function FirstLow(lead: byte): int {
    if lead == 0xE0 then 0xA0 else if lead == 0xF0 then 0x90 else 0x80
  }

  function FirstHigh(lead: byte): int {
    if lead == 0xED then 0x9F else if lead == 0xF4 then 0x8F else 0xBF
  }

  /** How many bytes after the lead byte continue its sequence correctly (at most the number announced). */
  function ContinuedFor(b: Bytes, need: nat): (k: nat)
    requires |b| >= 1
    ensures k <= need && k <= |b| - 1
  {
    if need == 0 || |b| < 2 then 0
    else if !(FirstLow(b[0]) <= b[1] <= FirstHigh(b[0])) then 0
    else if need == 1 || |b| < 3 || !IsContinuation(b[2]) then 1
    else if need == 2 || |b| < 4 || !IsContinuation(b[3]) then 2
    else 3
  }

  datatype Step = Decoded(c: char, used: nat) | Invalid(used: nat)

  function CodePoint(b: Bytes, need: nat): int
    requires 1 <= need <= 3 && |b| > need
  {
    var b0: int, b1: int := b[0], b[1];
    if need == 1 then (b0 - 0xC0) * 64 + (b1 - 0x80)
    else
      var b2: int := b[2];
      if need == 2 then (b0 - 0xE0) * 4096 + (b1 - 0x80) * 64 + (b2 - 0x80)
      else
        var b3: int := b[3];
        (b0 - 0xF0) * 262144 + (b1 - 0x80) * 4096 + (b2 - 0x80) * 64 + (b3 - 0x80)
  }

  /**
    One decoding step at the start of `b`: a well-formed sequence gives its
    code point; otherwise the lead byte and the continuation bytes that were
    still acceptable form one ill-formed subpart.
  */
  function DecodeStep(b: Bytes): (r: Step)
    requires |b| >= 1
    ensures 1 <= r.used <= |b|
  {
    var need := Needed(b[0]);
    if need < 0 then Invalid(1)
    else if need == 0 then Decoded(b[0] as char, 1)
    else
      var k := ContinuedFor(b, need);
      if k < need then Invalid(1 + k)
      else
        var n := CodePoint(b, need);
        assert 0 <= n < 0xD800 || 0xE000 <= n < 0x110000;
        Decoded(n as char, 1 + need)
  }

  /** `buf.toString('utf8')`. */
  function DecodeLossy(b: Bytes): string
    decreases |b|
  {
    if |b| == 0 then ""
    else
      match DecodeStep(b)
      case Decoded(c, used) => [c] + DecodeLossy(b[used..])
      case Invalid(used) => [Replacement] + DecodeLossy(b[used..])
  }

  /** The code point a complete, well-formed sequence stands for; `None` otherwise. */
  function DecodeExact(b: Bytes): (r: Option<char>)
    ensures r.Some? ==> |b| >= 1 && DecodeStep(b) == Decoded(r.value, |b|)
  {
    if |b| == 0 then None
    else
      match DecodeStep(b)
      case Decoded(c, used) => if used == |b| then Some(c) else None
      case Invalid(_) => None
  }

  /** Decoding the front of a text finds exactly the encoding of its first character. */
  lemma DecodeStepEncodeChar(c: char, rest: Bytes)
    ensures DecodeStep(EncodeChar(c) + rest) == Decoded(c, |EncodeChar(c)|)
  {
    var n := c as int;
    if n < 0x80 {
    } else if n < 0x800 {
      DecodeTwo(c, rest);
    } else if n < 0x10000 {
      DecodeThree(c, rest);
    } else {
      DecodeFour(c, rest);
    }
  }

  lemma DecodeTwo(c: char, rest: Bytes)
    requires 0x80 <= c as int < 0x800
    ensures DecodeStep(EncodeChar(c) + rest) == Decoded(c, 2)
  {
    var n := c as int;
    var b := EncodeChar(c) + rest;
    var q, r := n / 64, n % 64;
    assert n == q * 64 + r;
    assert b[0] == 0xC0 + q && b[1] == 0x80 + r;
    assert Needed(b[0]) == 1;
    assert ContinuedFor(b, 1) == 1;
    assert CodePoint(b, 1) == n;
  }

  lemma DecodeThree(c: char, rest: Bytes)
    requires 0x800 <= c as int < 0x10000
    ensures DecodeStep(EncodeChar(c) + rest) == Decoded(c, 3)
  {
    var n := c as int;
    var b := EncodeChar(c) + rest;
    var q, m := n / 4096, n % 4096;
    assert n == q * 4096 + m;
    assert m / 64 == n / 64 % 64 && m % 64 == n % 64 by {
      assert n / 64 == q * 64 + m / 64;
    }
    assert m == m / 64 * 64 + m % 64;
    assert b[0] == 0xE0 + q && b[1] == 0x80 + m / 64 && b[2] == 0x80 + m % 64;
    assert Needed(b[0]) == 2;
    assert ContinuedFor(b, 2) == 2;
    assert CodePoint(b, 2) == n;
  }

  lemma DecodeFour(c: char, rest: Bytes)
    requires 0x10000 <= c as int
    ensures DecodeStep(EncodeChar(c) + rest) == Decoded(c, 4)
  {
    var n := c as int;
    var b := EncodeChar(c) + rest;
    FourDigits(n);
    assert b[0] == 0xF0 + n / 262144 && b[1] == 0x80 + n / 4096 % 64;
    assert b[2] == 0x80 + n / 64 % 64 && b[3] == 0x80 + n % 64;
    assert Needed(b[0]) == 3;
    assert ContinuedFor(b, 3) == 3;
    assert CodePoint(b, 3) == n;
  }

  /** The base-64 digits of a supplementary code point, as the four-byte form splits it. */
  lemma FourDigits(n: int)
    requires 0x10000 <= n < 0x110000
    ensures n == n / 262144 * 262144 + n / 4096 % 64 * 4096 + n / 64 % 64 * 64 + n % 64
    ensures n / 262144 <= 4
    ensures n / 262144 == 0 ==> n / 4096 % 64 >= 0x10
    ensures n / 262144 == 4 ==> n / 4096 % 64 < 0x10
  {
    var q, m := n / 262144, n % 262144;
    assert n == q * 262144 + m;
    var m1, m2 := m / 4096, m % 4096;
    assert m == m1 * 4096 + m2;
    assert n / 4096 == q * 64 + m1;
    assert n / 64 == q * 4096 + m1 * 64 + m2 / 64;
    assert m2 == m2 / 64 * 64 + m2 % 64;
  }

  lemma DecodeExactEncodeChar(c: char)
    ensures DecodeExact(EncodeChar(c)) == Some(c)
  {
    DecodeStepEncodeChar(c, []);
    assert EncodeChar(c) + [] == EncodeChar(c);
  }

  /** Decoding what `Buffer.from` produced gives the text back. */
  lemma {:induction false} DecodeEncode(s: string)
    ensures DecodeLossy(Encode(s)) == s
    decreases |s|
  {
    if |s| > 0 {
      var e := Encode(s);
      DecodeStepEncodeChar(s[0], Encode(s[1..]));
      assert e[|EncodeChar(s[0])|..] == Encode(s[1..]);
      DecodeEncode(s[1..]);
      assert s == [s[0]] + s[1..];
    }
  }
}
