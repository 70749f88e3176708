/**
  Percent-encoding as Node's `querystring` module does it, and the variant the
  subject encoder uses.

  `querystring.escape` keeps the letters, digits and `! ' ( ) * - . _ ~`, and
  writes every other code point as the `%XX` escapes (upper-case hex) of its
  UTF-8 bytes. `querystring.unescape` is `decodeURIComponent` when that
  succeeds, and otherwise `unescapeBuffer` (every `%XX` with two hex digits is
  a byte, every other UTF-16 code unit is truncated to its low byte) read back
  as UTF-8.
*/
module Percent {
  import opened Wrappers
  import opened JsObject
  import opened Text
  import Utf8

  predicate Unreserved(c: char) {
    || ('A' <= c <= 'Z') || ('a' <= c <= 'z') || ('0' <= c <= '9')
    || c == '!' || c == '\'' || c == '(' || c == ')' || c == '*'
    || c == '-' || c == '.' || c == '_' || c == '~'
  }

  /** The three characters `%XX` for one byte. */
  function Triple(b: byte): (t: string)
    ensures |t| == 3 && t[0] == '%' && IsHexDigit(t[1]) && IsHexDigit(t[2])
    ensures HexDigitValue(t[1]) * 16 + HexDigitValue(t[2]) == b
  {
    ['%', HexDigitUpper(b / 16), HexDigitUpper(b % 16)]
  }

  function Triples(bs: Bytes): (t: string)
    ensures |t| == 3 * |bs|
  {
    if |bs| == 0 then "" else Triple(bs[0]) + Triples(bs[1..])
  }

  /** Escape one character, leaving the unreserved ones and those in `keep` as they are. */
  function EscapeChar(c: char, keep: set<char>): string {
    if Unreserved(c) || c in keep then [c] else Triples(Utf8.EncodeChar(c))
  }

  function EscapeKeeping(s: string, keep: set<char>): string {
    if |s| == 0 then "" else EscapeChar(s[0], keep) + EscapeKeeping(s[1..], keep)
  }

  /** `querystring.escape(s)`. */
  function QsEscape(s: string): string {
    EscapeKeeping(s, {})
  }

  /** The escaping the subject encoder applies: `querystring.escape` with '@' and ' ' left literal. */
  function MyEsc(s: string): string {
    EscapeKeeping(s, {'@', ' '})
  }

  // ---------------------------------------------------------------------------
  // The subject encoder's two replacements, and why they give `MyEsc`
  // ---------------------------------------------------------------------------

  /** `s.replace(/p/g, r)` for a literal pattern `p`: left to right, non-overlapping. */
  function ReplaceAll(s: string, p: string, r: string): string
    requires |p| > 0
    decreases |s|
  {
    if |s| < |p| then s
    else if s[..|p|] == p then r + ReplaceAll(s[|p|..], p, r)
    else [s[0]] + ReplaceAll(s[1..], p, r)
  }

  /** A run without '%' passes a '%'-led pattern untouched. */
  lemma {:induction false} ReplaceSkips(x: string, rest: string, p: string, r: string)
    requires |p| > 0 && p[0] == '%' && '%' !in x
    ensures ReplaceAll(x + rest, p, r) == x + ReplaceAll(rest, p, r)
    decreases |x|
  {
    if |x| == 0 {
      assert x + rest == rest;
    } else {
      var s := x + rest;
      assert s[0] == x[0] && x[0] != '%';
      assert s[1..] == x[1..] + rest;
      ReplaceSkips(x[1..], rest, p, r);
      if |s| < |p| {
        assert ReplaceAll(rest, p, r) == rest;
      } else {
        assert s[..|p|] != p by { assert s[..|p|][0] != p[0]; }
        assert ReplaceAll(s, p, r) == [x[0]] + (x[1..] + ReplaceAll(rest, p, r));
        assert x == [x[0]] + x[1..];
      }
    }
  }

  lemma ReplaceTripleMatch(b: byte, rest: string, r: string)
    ensures ReplaceAll(Triple(b) + rest, Triple(b), r) == r + ReplaceAll(rest, Triple(b), r)
  {
    var s := Triple(b) + rest;
    assert s[..3] == Triple(b);
    assert s[3..] == rest;
  }

  lemma ReplaceTripleOther(b: byte, pb: byte, rest: string, r: string)
    requires b != pb
    ensures ReplaceAll(Triple(b) + rest, Triple(pb), r) == Triple(b) + ReplaceAll(rest, Triple(pb), r)
  {
    var s := Triple(b) + rest;
    var t := Triple(b);
    assert s[..3] != Triple(pb) by {
      assert s[..3] == t;
      assert b == HexDigitValue(t[1]) * 16 + HexDigitValue(t[2]);
    }
    assert s[1..] == t[1..] + rest;
    ReplaceSkips(t[1..], rest, Triple(pb), r);
    assert t == [t[0]] + t[1..];
  }

  lemma {:induction false} ReplaceTriplesOther(bs: Bytes, pb: byte, rest: string, r: string)
    requires pb !in bs
    ensures ReplaceAll(Triples(bs) + rest, Triple(pb), r) == Triples(bs) + ReplaceAll(rest, Triple(pb), r)
    decreases |bs|
  {
    if |bs| == 0 {
      assert Triples(bs) + rest == rest;
    } else {
      assert Triples(bs) + rest == Triple(bs[0]) + (Triples(bs[1..]) + rest);
      ReplaceTripleOther(bs[0], pb, Triples(bs[1..]) + rest, r);
      ReplaceTriplesOther(bs[1..], pb, rest, r);
    }
  }

  lemma EscapeCharAppend(c: char, s: string, keep: set<char>)
    ensures EscapeKeeping([c] + s, keep) == EscapeChar(c, keep) + EscapeKeeping(s, keep)
  {
    assert ([c] + s)[1..] == s;
  }

  /**
    Replacing the escape of an ASCII character `pc` by `pc` itself, over text
    escaped with the characters `keep` left literal, gives the text escaped
    with `pc` left literal as well.
  */
  lemma {:induction false} ReplaceKeeps(s: string, keep: set<char>, pc: char)
    requires '%' !in keep && pc != '%' && pc !in keep && !Unreserved(pc) && (pc as int) < 0x80
    ensures ReplaceAll(EscapeKeeping(s, keep), Triple(pc as int), [pc]) == EscapeKeeping(s, keep + {pc})
    decreases |s|
  {
    var pb: byte := pc as int;
    if |s| > 0 {
      var c := s[0];
      var tail := EscapeKeeping(s[1..], keep);
      ReplaceKeeps(s[1..], keep, pc);
      if Unreserved(c) || c in keep {
        ReplaceSkips([c], tail, Triple(pb), [pc]);
      } else if c == pc {
        assert Utf8.EncodeChar(c) == [pb];
        assert Triples([pb]) == Triple(pb);
        ReplaceTripleMatch(pb, tail, [pc]);
      } else {
        var e := Utf8.EncodeChar(c);
        assert pb !in e by {
          if (c as int) < 0x80 {
            assert e == [c as int];
          } else {
            assert forall i | 0 <= i < |e| :: e[i] >= 0x80;
          }
        }
        ReplaceTriplesOther(e, pb, tail, [pc]);
      }
    }
  }

  /** The subject encoder's `escape(s).replace(/%40/g, '@').replace(/%20/g, ' ')` is `MyEsc`. */
  lemma ReplacementsGiveMyEsc(s: string)
    ensures ReplaceAll(ReplaceAll(QsEscape(s), "%40", "@"), "%20", " ") == MyEsc(s)
  {
    assert Triple(0x40) == "%40";
    assert Triple(0x20) == "%20";
    ReplaceKeeps(s, {}, '@');
    assert {} + {'@'} == {'@'};
    ReplaceKeeps(s, {'@'}, ' ');
    assert {'@'} + {' '} == {'@', ' '};
  }

  // ---------------------------------------------------------------------------
  // What the escaped text looks like
  // ---------------------------------------------------------------------------

  /** The characters `MyEsc` can produce. */
  predicate EscapedChar(c: char) {
    Unreserved(c) || c == '@' || c == ' ' || c == '%' || IsHexDigit(c)
  }

  lemma {:induction false} TriplesChars(bs: Bytes)
    ensures forall i :: 0 <= i < |Triples(bs)| ==> EscapedChar(Triples(bs)[i])
    ensures |bs| > 0 ==> IsHexDigit(Triples(bs)[|Triples(bs)| - 1])
    decreases |bs|
  {
    if |bs| > 0 {
      TriplesChars(bs[1..]);
    }
  }

  /**
    The escaped text uses only unreserved characters, '@', ' ', '%' and hex
    digits (so never '/' or '='), is empty exactly when the input is, and ends
    in a space exactly when the input does.
  */
  lemma {:induction false} MyEscShape(s: string)
    ensures forall i :: 0 <= i < |MyEsc(s)| ==> EscapedChar(MyEsc(s)[i])
    ensures |MyEsc(s)| == 0 <==> |s| == 0
    ensures |s| > 0 ==> (MyEsc(s)[|MyEsc(s)| - 1] == ' ' <==> s[|s| - 1] == ' ')
    decreases |s|
  {
    if |s| > 0 {
      var head := EscapeChar(s[0], {'@', ' '});
      MyEscShape(s[1..]);
      if !(Unreserved(s[0]) || s[0] in {'@', ' '}) {
        TriplesChars(Utf8.EncodeChar(s[0]));
      }
      assert MyEsc(s) == head + MyEsc(s[1..]);
      if |s| == 1 {
        assert MyEsc(s[1..]) == "";
        assert MyEsc(s) == head;
      }
    }
  }

  // ---------------------------------------------------------------------------
  // Decoding
  // ---------------------------------------------------------------------------

  /** The UTF-8 sequence length a lead byte announces by its leading one bits (1 for a stray continuation byte, 5 for 0xF8 and above). */
  function LeadLength(b: byte): nat {
    if b < 0x80 then 1 else if b < 0xC0 then 1 else if b < 0xE0 then 2 else if b < 0xF0 then 3 else if b < 0xF8 then 4 else 5
  }

  /** Read `n` escapes `%XX` from the front of `s`. */
  function ReadEscapes(s: string, n: nat): (r: Option<Bytes>)
    ensures r.Some? ==> |r.value| == n && 3 * n <= |s|
    decreases n
  {
    if n == 0 then Some([])
    else if |s| < 3 || s[0] != '%' || !IsHexDigit(s[1]) || !IsHexDigit(s[2]) then None
    else
      var b: byte := HexDigitValue(s[1]) * 16 + HexDigitValue(s[2]);
      match ReadEscapes(s[3..], n - 1)
      case None => None
      case Some(rest) => Some([b] + rest)
  }

  /**
    `decodeURIComponent(s)`; `None` is the `URIError` it throws for a '%' not
    followed by two hex digits, a stray or over-long lead byte, a missing
    escape inside a multi-byte sequence, or bytes that are not well-formed
    UTF-8.
  */
  function DecodeUriComponent(s: string): Option<string>
    decreases |s|
  {
    if |s| == 0 then Some("")
    else if s[0] != '%' then
      match DecodeUriComponent(s[1..])
      case None => None
      case Some(t) => Some([s[0]] + t)
    else
      match ReadEscapes(s, 1)
      case None => None
      case Some(first) =>
        var n := if first[0] < 0x80 then 1 else LeadLength(first[0]);
        if first[0] >= 0x80 && (n < 2 || n > 4) then None
        else
          match ReadEscapes(s, n)
          case None => None
          case Some(octets) =>
            match Utf8.DecodeExact(octets)
            case None => None
            case Some(c) =>
              match DecodeUriComponent(s[3 * n..])
              case None => None
              case Some(t) => Some([c] + t)
  }

  /** The bytes JavaScript's UTF-16 code units for `c` truncate to. */
  function CodeUnitBytes(c: char): (bs: Bytes)
    ensures 1 <= |bs| <= 2
  {
    var n := c as int;
    if n < 0x10000 then [n % 256]
    else [(0xD800 + (n - 0x10000) / 1024) % 256, (0xDC00 + (n - 0x10000) % 1024) % 256]
  }

  /** `querystring.unescapeBuffer(s)` without '+' decoding. */
  function UnescapeBuffer(s: string): Bytes
    decreases |s|
  {
    if |s| == 0 then []
    else if |s| >= 3 && s[0] == '%' && IsHexDigit(s[1]) && IsHexDigit(s[2]) then
      [HexDigitValue(s[1]) * 16 + HexDigitValue(s[2])] + UnescapeBuffer(s[3..])
    else CodeUnitBytes(s[0]) + UnescapeBuffer(s[1..])
  }

  /** `querystring.unescape(s)`. */
  function Unescape(s: string): (r: string)
    ensures DecodeUriComponent(s).Some? ==> r == DecodeUriComponent(s).value
  {
    match DecodeUriComponent(s)
    case Some(t) => t
    case None => Utf8.DecodeLossy(UnescapeBuffer(s))
  }

  lemma {:induction false} ReadTriples(bs: Bytes, rest: string)
    ensures ReadEscapes(Triples(bs) + rest, |bs|) == Some(bs)
    decreases |bs|
  {
    if |bs| > 0 {
      var s := Triples(bs) + rest;
      assert s[..3] == Triple(bs[0]);
      assert s[3..] == Triples(bs[1..]) + rest;
      ReadTriples(bs[1..], rest);
      assert bs == [bs[0]] + bs[1..];
    }
  }

  lemma LeadLengthOfEncoding(c: char)
    requires (c as int) >= 0x80
    ensures 2 <= |Utf8.EncodeChar(c)| <= 4
    ensures Utf8.EncodeChar(c)[0] >= 0x80 && LeadLength(Utf8.EncodeChar(c)[0]) == |Utf8.EncodeChar(c)|
  {
    var n := c as int;
    if n >= 0x10000 {
      Utf8.FourDigits(n);
    }
  }

  /** Decoding undoes the escaping of one character. */
  lemma DecodeEscapedChar(c: char, rest: string, keep: set<char>)
    requires '%' !in keep
    ensures DecodeUriComponent(EscapeChar(c, keep) + rest) ==
      match DecodeUriComponent(rest)
      case None => None
      case Some(t) => Some([c] + t)
  {
    var s := EscapeChar(c, keep) + rest;
    if Unreserved(c) || c in keep {
      assert s[1..] == rest;
    } else {
      var e := Utf8.EncodeChar(c);
      Utf8.DecodeExactEncodeChar(c);
      ReadTriples(e, rest);
      assert s[..3] == Triple(e[0]);
      assert s[..3] + s[3..] == s;
      ReadTriples(e[..1], s[3..]);
      assert Triples(e[..1]) == s[..3];
      assert e[..1] == [e[0]];
      assert s[3 * |e|..] == rest;
      if (c as int) >= 0x80 {
        LeadLengthOfEncoding(c);
      }
    }
  }

  /** `decodeURIComponent` recovers any text escaped with '%' itself escaped. */
  lemma {:induction false} DecodeEscape(s: string, keep: set<char>)
    requires '%' !in keep
    ensures DecodeUriComponent(EscapeKeeping(s, keep)) == Some(s)
    decreases |s|
  {
    if |s| > 0 {
      DecodeEscape(s[1..], keep);
      DecodeEscapedChar(s[0], EscapeKeeping(s[1..], keep), keep);
      assert s == [s[0]] + s[1..];
    }
  }

  /** `querystring.unescape` undoes the subject encoder's escaping. */
  lemma UnescapeMyEsc(s: string)
    ensures Unescape(MyEsc(s)) == s
  {
    DecodeEscape(s, {'@', ' '});
  }

  /** ... and `querystring.escape` itself. */
  lemma UnescapeQsEscape(s: string)
    ensures Unescape(QsEscape(s)) == s
  {
    DecodeEscape(s, {});
  }
}
