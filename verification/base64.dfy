/**
  Base64 with the alphabet and padding of section 4 of RFC 4648, as Node's
  `buf.toString('base64')` writes it, and the lenient reading of
  `Buffer.from(s, 'base64')`: characters outside the alphabet are skipped,
  decoding stops at the first '=', the URL-safe '-' and '_' are accepted for
  '+' and '/', and a final group of two or three characters yields one or two
  bytes.
*/
module Base64 {
  import opened JsObject

  type Sextet = x: int | 0 <= x < 64

  function CharOf(v: Sextet): (c: char)
    ensures c != '='
  {
    if v < 26 then ('A' as int + v) as char
    else if v < 52 then ('a' as int + v - 26) as char
    else if v < 62 then ('0' as int + v - 52) as char
    else if v == 62 then '+'
    else '/'
  }

  /** The value of a Base64 character, or -1 for a character the decoder skips. */
  function ValueOf(c: char): (v: int)
    ensures -1 <= v < 64
  {
    if 'A' <= c <= 'Z' then c as int - 'A' as int
    else if 'a' <= c <= 'z' then c as int - 'a' as int + 26
    else if '0' <= c <= '9' then c as int - '0' as int + 52
    else if c == '+' || c == '-' then 62
    else if c == '/' || c == '_' then 63
    else -1
  }

  lemma ValueOfCharOf(v: Sextet)
    ensures ValueOf(CharOf(v)) == v
  {
  }

  /** The sextets of `b`, three bytes to four sextets, with a short final group. */
  function EncodeSextets(b: Bytes): (vs: seq<Sextet>)
    ensures |vs| == (4 * |b| + 2) / 3
  {
    if |b| == 0 then []
    else if |b| == 1 then [b[0] / 4, b[0] % 4 * 16]
    else if |b| == 2 then [b[0] / 4, b[0] % 4 * 16 + b[1] / 16, b[1] % 16 * 4]
    else [b[0] / 4, b[0] % 4 * 16 + b[1] / 16, b[1] % 16 * 4 + b[2] / 64, b[2] % 64] + EncodeSextets(b[3..])
  }

  function Chars(vs: seq<Sextet>): (s: string)
    ensures |s| == |vs| && '=' !in s
    ensures forall i :: 0 <= i < |vs| ==> s[i] == CharOf(vs[i])
  {
    if |vs| == 0 then "" else [CharOf(vs[0])] + Chars(vs[1..])
  }

  function Padding(n: nat): string {
    if n % 3 == 1 then "==" else if n % 3 == 2 then "=" else ""
  }

  /** `buf.toString('base64')`. */
  function Encode(b: Bytes): (s: string)
    ensures |s| % 4 == 0
  {
    Chars(EncodeSextets(b)) + Padding(|b|)
  }

  /** The sextets the lenient decoder sees: alphabet characters before the first '='. */
  function Sextets(s: string): seq<Sextet> {
    if |s| == 0 || s[0] == '=' then []
    else if ValueOf(s[0]) < 0 then Sextets(s[1..])
    else [ValueOf(s[0]) as Sextet] + Sextets(s[1..])
  }

  function DecodeSextets(vs: seq<Sextet>): Bytes {
    if |vs| < 2 then []
    else
      var v0: int, v1: int := vs[0], vs[1];
      if |vs| == 2 then [v0 * 4 + v1 / 16]
      else
        var v2: int := vs[2];
        if |vs| == 3 then [v0 * 4 + v1 / 16, v1 % 16 * 16 + v2 / 4]
        else
          var v3: int := vs[3];
          [v0 * 4 + v1 / 16, v1 % 16 * 16 + v2 / 4, v2 % 4 * 64 + v3] + DecodeSextets(vs[4..])
  }

  /** `Buffer.from(s, 'base64')`. */
  function Decode(s: string): Bytes {
    DecodeSextets(Sextets(s))
  }

  lemma {:induction false} SextetsOfChars(vs: seq<Sextet>, tail: string)
    requires |tail| == 0 || tail[0] == '='
    ensures Sextets(Chars(vs) + tail) == vs
    decreases |vs|
  {
    if |vs| == 0 {
      assert Chars(vs) + tail == tail;
    } else {
      ValueOfCharOf(vs[0]);
      assert (Chars(vs) + tail)[1..] == Chars(vs[1..]) + tail;
      SextetsOfChars(vs[1..], tail);
    }
  }

  lemma GroupRoundTrip(b0: byte, b1: byte, b2: byte)
    ensures b0 / 4 * 4 + (b0 % 4 * 16 + b1 / 16) / 16 == b0
    ensures (b0 % 4 * 16 + b1 / 16) % 16 * 16 + (b1 % 16 * 4 + b2 / 64) / 4 == b1
    ensures (b1 % 16 * 4 + b2 / 64) % 4 * 64 + b2 % 64 == b2
  {
  }

  lemma {:induction false} DecodeEncodeSextets(b: Bytes)
    ensures DecodeSextets(EncodeSextets(b)) == b
    decreases |b|
  {
    if |b| == 0 {
    } else if |b| == 1 {
      GroupRoundTrip(b[0], 0, 0);
    } else if |b| == 2 {
      GroupRoundTrip(b[0], b[1], 0);
    } else {
      GroupRoundTrip(b[0], b[1], b[2]);
      DecodeEncodeSextets(b[3..]);
      var vs := EncodeSextets(b);
      assert vs[4..] == EncodeSextets(b[3..]);
      assert b == b[..3] + b[3..];
    }
  }

  /** Reading back what `toString('base64')` wrote gives the same bytes. */
  lemma DecodeEncode(b: Bytes)
    ensures Decode(Encode(b)) == b
  {
    SextetsOfChars(EncodeSextets(b), Padding(|b|));
    DecodeEncodeSextets(b);
  }
}
