/**
  `JSON.stringify` for the shapes the config renderer prints in its header: an
  object of objects whose values are primitives or string arrays. Properties
  whose value is `undefined` are left out, as `JSON.stringify` does.
*/
module JsonText {
  import opened JsObject
  import opened Text

  /** The escape `JSON.stringify` writes for one character of a string. */
  function EscapeChar(c: char): string {
    var n := c as int;
    if c == '"' then "\\\""
    else if c == '\\' then "\\\\"
    else if n == 0x08 then "\\b"
    else if n == 0x09 then "\\t"
    else if n == 0x0A then "\\n"
    else if n == 0x0C then "\\f"
    else if n == 0x0D then "\\r"
    else if n < 0x20 then "\\u00" + [HexDigitLower(n / 16), HexDigitLower(n % 16)]
    else [c]
  }

  function HexDigitLower(n: nat): char
    requires n < 16
  {
    if n < 10 then ('0' as int + n) as char else ('a' as int + n - 10) as char
  }

  function EscapeString(s: string): string {
    if |s| == 0 then "" else EscapeChar(s[0]) + EscapeString(s[1..])
  }

  function Quote(s: string): string {
    "\"" + EscapeString(s) + "\""
  }

  function QuoteAll(items: seq<string>): seq<string> {
    if |items| == 0 then [] else [Quote(items[0])] + QuoteAll(items[1..])
  }

  /** The JSON text of a value that is not `undefined`. */
  function ValueText(v: Value): string
    requires !v.Undefined?
  {
    match v
    case Null => "null"
    case Bool(b) => if b then "true" else "false"
    case Num(n) => IntToString(n)
    case Str(s) => Quote(s)
    case Arr(items) => "[" + JoinComma(QuoteAll(items)) + "]"
  }

  function Members(d: Dict<Value>): seq<string> {
    if |d| == 0 then []
    else if d[0].1.Undefined? then Members(d[1..])
    else [Quote(d[0].0) + ":" + ValueText(d[0].1)] + Members(d[1..])
  }

  function ObjectText(d: Dict<Value>): string {
    "{" + JoinComma(Members(d)) + "}"
  }

  function SectionMembers(sections: Dict<Dict<Value>>): seq<string> {
    if |sections| == 0 then []
    else [Quote(sections[0].0) + ":" + ObjectText(sections[0].1)] + SectionMembers(sections[1..])
  }

  /** `JSON.stringify(sections)`. */
  function Stringify(sections: Dict<Dict<Value>>): string {
    "{" + JoinComma(SectionMembers(sections)) + "}"
  }

  // ---------------------------------------------------------------------------
  // JSON text never holds a raw line break
  // ---------------------------------------------------------------------------

  predicate NoNewline(s: string) {
    '\n' !in s
  }

  lemma {:induction false} EscapeStringNoNewline(s: string)
    ensures NoNewline(EscapeString(s))
    decreases |s|
  {
    if |s| > 0 {
      EscapeStringNoNewline(s[1..]);
    }
  }

  lemma QuoteNoNewline(s: string)
    ensures NoNewline(Quote(s))
  {
    EscapeStringNoNewline(s);
  }

  lemma {:induction false} JoinCommaNoNewline(items: seq<string>)
    requires forall i :: 0 <= i < |items| ==> NoNewline(items[i])
    ensures NoNewline(JoinComma(items))
    decreases |items|
  {
    if |items| > 1 {
      JoinCommaNoNewline(items[1..]);
    }
  }

  lemma {:induction false} QuoteAllNoNewline(items: seq<string>)
    ensures |QuoteAll(items)| == |items|
    ensures forall i :: 0 <= i < |items| ==> NoNewline(QuoteAll(items)[i])
    decreases |items|
  {
    if |items| > 0 {
      QuoteNoNewline(items[0]);
      QuoteAllNoNewline(items[1..]);
    }
  }

  lemma ValueTextNoNewline(v: Value)
    requires !v.Undefined?
    ensures NoNewline(ValueText(v))
  {
    match v
    case Num(n) =>
      var digits := NatToDecimal(if n < 0 then -n else n);
      assert forall i :: 0 <= i < |digits| ==> IsDigit(digits[i]);
    case Str(s) => QuoteNoNewline(s);
    case Arr(items) =>
      QuoteAllNoNewline(items);
      JoinCommaNoNewline(QuoteAll(items));
    case _ =>
  }

  lemma {:induction false} MembersNoNewline(d: Dict<Value>)
    ensures forall i :: 0 <= i < |Members(d)| ==> NoNewline(Members(d)[i])
    decreases |d|
  {
    if |d| > 0 {
      MembersNoNewline(d[1..]);
      if !d[0].1.Undefined? {
        QuoteNoNewline(d[0].0);
        ValueTextNoNewline(d[0].1);
      }
    }
  }

  lemma {:induction false} SectionMembersNoNewline(sections: Dict<Dict<Value>>)
    ensures forall i :: 0 <= i < |SectionMembers(sections)| ==> NoNewline(SectionMembers(sections)[i])
    decreases |sections|
  {
    if |sections| > 0 {
      SectionMembersNoNewline(sections[1..]);
      QuoteNoNewline(sections[0].0);
      MembersNoNewline(sections[0].1);
      JoinCommaNoNewline(Members(sections[0].1));
    }
  }

  /** The header's JSON text is a single line, whatever the keys and values hold. */
  lemma StringifyNoNewline(sections: Dict<Dict<Value>>)
    ensures NoNewline(Stringify(sections))
  {
    SectionMembersNoNewline(sections);
    JoinCommaNoNewline(SectionMembers(sections));
  }
}
