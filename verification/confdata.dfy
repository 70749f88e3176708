/**
  The INI-style text handed to `openssl -config` (lib/create-conf-data/create-conf-data.js):
  three comment lines echoing the sections as JSON, then for every section
  its `[name]` header, one `k = v` line per entry and a blank line, all joined
  by "\n".
*/
module ConfData {
  import opened JsObject
  import opened Text
  import JsonText
  import Utf8

  /** A config's sections: section name to its key/value entries, both in enumeration order. */
  type Sections = Dict<Dict<Value>>

  /** What `create_conf_data` returns: a `Buffer` or a string. */
  datatype ConfOut = BufferOut(bytes: Bytes) | TextOut(text: string)

  /** An entry's value as the line shows it: arrays joined by "," without spaces, anything else through `String`. */
  function RenderValue(v: Value): string {
    match v
    case Arr(items) => JoinComma(items)
    case _ => ToStr(v)
  }

  function EntryLines(kv: Dict<Value>): (lines: seq<string>)
    ensures |lines| == |kv|
    ensures forall i :: 0 <= i < |kv| ==> lines[i] == kv[i].0 + " = " + RenderValue(kv[i].1)
  {
    if |kv| == 0 then [] else [kv[0].0 + " = " + RenderValue(kv[0].1)] + EntryLines(kv[1..])
  }

  function SectionLines(name: string, kv: Dict<Value>): (lines: seq<string>)
    ensures |lines| == |kv| + 2
  {
    ["[" + name + "]"] + EntryLines(kv) + [""]
  }

  function BodyLines(sections: Sections): seq<string> {
    if |sections| == 0 then []
    else SectionLines(sections[0].0, sections[0].1) + BodyLines(sections[1..])
  }

  function HeaderLines(sections: Sections): seq<string> {
    ["#", "# input sections : " + JsonText.Stringify(sections), "#"]
  }

  /** The `out` array before joining. */
  function Lines(sections: Sections): seq<string> {
    HeaderLines(sections) + BodyLines(sections)
  }

  function ConfText(sections: Sections): string {
    Join(Lines(sections), "\n")
  }

  /** `create_conf_data(sections, {out_buffer})`. */
  function CreateConfData(sections: Sections, outBuffer: Value): (r: ConfOut)
    ensures r.BufferOut? <==> Truthy(Coalesce(outBuffer, Bool(true)))
    ensures r.BufferOut? ==> Utf8.DecodeLossy(r.bytes) == ConfText(sections)
    ensures r.TextOut? ==> r.text == ConfText(sections)
  {
    var text := ConfText(sections);
    if Truthy(Coalesce(outBuffer, Bool(true))) then
      Utf8.DecodeEncode(text);
      BufferOut(Utf8.Encode(text))
    else TextOut(text)
  }

  // ---------------------------------------------------------------------------
  // Shape of the output
  // ---------------------------------------------------------------------------

  /** The number of lines the sections before index `n` take. */
  function LinesBefore(sections: Sections, n: nat): nat
    requires n <= |sections|
  {
    if n == 0 then 0 else LinesBefore(sections, n - 1) + |sections[n - 1].1| + 2
  }

  lemma {:induction false} BodyLength(sections: Sections)
    ensures |BodyLines(sections)| == LinesBefore(sections, |sections|)
    decreases |sections|
  {
    if |sections| > 0 {
      BodyLength(sections[1..]);
      ShiftLinesBefore(sections, |sections|);
    }
  }

  /**
    Section `i` starts at line `LinesBefore(sections, i)` of the body (after
    the three header lines) with its `[name]` line, continues with its entries
    in order and ends with a blank line.
  */
  lemma {:induction false} SectionAt(sections: Sections, i: nat)
    requires i < |sections|
    ensures LinesBefore(sections, i) + |sections[i].1| + 2 <= |BodyLines(sections)|
    ensures BodyLines(sections)[LinesBefore(sections, i)..LinesBefore(sections, i) + |sections[i].1| + 2]
      == SectionLines(sections[i].0, sections[i].1)
    decreases i
  {
    var rest := sections[1..];
    var head := SectionLines(sections[0].0, sections[0].1);
    var tail := BodyLines(rest);
    var want := SectionLines(sections[i].0, sections[i].1);
    var len := |sections[i].1| + 2;
    assert BodyLines(sections) == head + tail;
    if i == 0 {
      assert (head + tail)[0..|head|] == head;
    } else {
      var at := LinesBefore(rest, i - 1);
      assert LinesBefore(sections, i) == |head| + at by {
        ShiftLinesBefore(sections, i);
      }
      assert at + len <= |tail| && tail[at..at + len] == want by {
        SectionAt(rest, i - 1);
        assert rest[i - 1] == sections[i];
      }
      SliceAfter(head, tail, at, len);
    }
  }

  lemma SliceAfter<T>(a: seq<T>, b: seq<T>, at: nat, len: nat)
    requires at + len <= |b|
    ensures (a + b)[|a| + at..|a| + at + len] == b[at..at + len]
  {
  }

  lemma {:induction false} ShiftLinesBefore(sections: Sections, n: nat)
    requires 0 < |sections| && n <= |sections|
    ensures n > 0 ==> LinesBefore(sections, n) == |sections[0].1| + 2 + LinesBefore(sections[1..], n - 1)
    decreases n
  {
    if n > 1 {
      ShiftLinesBefore(sections, n - 1);
    }
  }

  /** The output has `3 + Σ(entries + 2)` lines. */
  lemma LineCount(sections: Sections)
    ensures |Lines(sections)| == 3 + LinesBefore(sections, |sections|)
  {
    BodyLength(sections);
  }

  // ---------------------------------------------------------------------------
  // Splitting the text on "\n" gives the lines back
  // ---------------------------------------------------------------------------

  /** No section name, key or rendered value holds a line break. */
  predicate SingleLineEntries(sections: Sections) {
    forall i :: 0 <= i < |sections| ==>
      && '\n' !in sections[i].0
      && forall j :: 0 <= j < |sections[i].1| ==>
        '\n' !in sections[i].1[j].0 && '\n' !in RenderValue(sections[i].1[j].1)
  }

  lemma {:induction false} BodySingleLines(sections: Sections)
    requires SingleLineEntries(sections)
    ensures forall i :: 0 <= i < |BodyLines(sections)| ==> '\n' !in BodyLines(sections)[i]
    decreases |sections|
  {
    if |sections| > 0 {
      BodySingleLines(sections[1..]);
      var kv := sections[0].1;
      var lines := SectionLines(sections[0].0, kv);
      forall i | 0 <= i < |lines| ensures '\n' !in lines[i] {
        if 0 < i < |lines| - 1 {
          assert lines[i] == EntryLines(kv)[i - 1];
          assert lines[i] == kv[i - 1].0 + " = " + RenderValue(kv[i - 1].1);
        }
      }
    }
  }

  /** When nothing in the sections holds a line break, the text splits on "\n" into exactly the lines. */
  lemma SplitConfText(sections: Sections)
    requires SingleLineEntries(sections)
    ensures Split(ConfText(sections), '\n') == Lines(sections)
  {
    JsonText.StringifyNoNewline(sections);
    BodySingleLines(sections);
    var lines := Lines(sections);
    forall i | 0 <= i < |lines| ensures '\n' !in lines[i] {
      if i >= 3 {
        assert lines[i] == BodyLines(sections)[i - 3];
      }
    }
    SplitJoin(lines, '\n');
  }
}
