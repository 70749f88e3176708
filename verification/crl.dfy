/**
  Reading the text `openssl crl -noout -nextupdate -lastupdate -crlnumber`
  prints (`parse_crl_output` in lib/openssl/utils/inspect-crl.js): one
  `key=value` per line; the two dates and the CRL number are converted and
  renamed to `next_update`, `last_update` and `crl_number`, every other key
  is kept with its text.
*/
module CrlOutput {
  import opened Wrappers
  import opened JsObject
  import opened Text
  import opened Errors

  /**
    A value of the parsed record: text kept as is, a `Date` built from a text
    (`new Date(text)`, whose calendar arithmetic the model does not follow),
    or the result of `parseInt(text, 16)` (`None` for `NaN`).
  */
  datatype Field = Raw(s: string) | DateOf(text: string) | HexNumber(n: Option<int>)

  /** The lines of the output: trimmed, split on "\n", each trimmed, empty ones dropped. */
  function Lines(output: string): seq<string> {
    NonEmpty(TrimAll(Split(Trim(output), '\n')))
  }

  predicate NoLineTerminator(s: string) {
    forall i :: 0 <= i < |s| ==> !IsLineTerminator(s[i])
  }

  /** The position of the first `c` in `s`. */
  function FirstIndex(s: string, c: char): (r: Option<nat>)
    ensures r.Some? ==> r.value < |s| && s[r.value] == c && c !in s[..r.value]
    ensures r.None? ==> c !in s
  {
    if |s| == 0 then None
    else if s[0] == c then Some(0)
    else match FirstIndex(s[1..], c)
      case None => None
      case Some(i) =>
        assert s[..i + 1] == [s[0]] + s[1..][..i];
        Some(i + 1)
  }

  /**
    `line.match(/^(.*?)=(.*)$/)`: `.` matches anything but a line terminator,
    so a line matches when it holds an "=" and no line terminator; the lazy
    group ends at the first "=". Both sides come back trimmed.
  */
  function MatchLine(line: string): (r: Option<(string, string)>)
    ensures r.Some? <==> NoLineTerminator(line) && '=' in line
    ensures r.Some? ==>
      exists p :: 0 <= p < |line| && line[p] == '=' && '=' !in line[..p] && r.value == (Trim(line[..p]), Trim(line[p + 1..]))
  {
    if !NoLineTerminator(line) then None
    else match FirstIndex(line, '=')
      case None => None
      case Some(p) => Some((Trim(line[..p]), Trim(line[p + 1..])))
  }

  /**
    The conversion a key gets. The table is an object literal, so `in` also
    finds what every object inherits (`toString`, `__proto__`, …); those calls
    are not followed.
  */
  function Convert(lhs: string, rhs: string): (r: Result<Field, Error>)
    ensures r.Err? <==> ObjectPrototypeKey(lhs)
    ensures r.Ok? ==> r.value == ConvertedValue(lhs, rhs)
  {
    if ObjectPrototypeKey(lhs) then Err(Unmodelled("a key inherited by every object"))
    else Ok(ConvertedValue(lhs, rhs))
  }

  function ConvertedValue(lhs: string, rhs: string): Field {
    if lhs == "nextUpdate" || lhs == "lastUpdate" then DateOf(rhs)
    else if lhs == "crlNumber" then HexNumber(ParseIntHex(rhs))
    else Raw(rhs)
  }

  /** One iteration of the loop: a matching line assigns `result[lhs]`. */
  function Step(result: Dict<Field>, line: string): Result<Dict<Field>, Error> {
    match MatchLine(line)
    case None => Ok(result)
    case Some(e) =>
      var v :- Convert(e.0, e.1);
      Ok(Set(result, e.0, v))
  }

  /** The loop over the lines, in order. */
  function Assign(lines: seq<string>): Result<Dict<Field>, Error>
    decreases |lines|
  {
    if |lines| == 0 then Ok([])
    else
      var acc :- Assign(lines[..|lines| - 1]);
      Step(acc, lines[|lines| - 1])
  }

  /** `{nextUpdate: 'next_update', lastUpdate: 'last_update', crlNumber: 'crl_number'}[k] ?? k`. */
  function Rename(k: string): string {
    if k == "nextUpdate" then "next_update"
    else if k == "lastUpdate" then "last_update"
    else if k == "crlNumber" then "crl_number"
    else k
  }

  function Renamed(d: Dict<Field>): (r: Dict<Field>)
    ensures |r| == |d|
    ensures forall i :: 0 <= i < |d| ==> r[i] == (Rename(d[i].0), d[i].1)
  {
    seq(|d|, i requires 0 <= i < |d| => (Rename(d[i].0), d[i].1))
  }

  /** `parse_crl_output(output)`. */
  function ParseCrlOutput(output: string): (r: Result<Dict<Field>, Error>)
    ensures r.Err? <==> exists i :: 0 <= i < |Lines(output)| && Offending(Lines(output)[i])
  {
    AssignOk(Lines(output));
    var result :- Assign(Lines(output));
    Ok(FromEntries(Renamed(result)))
  }

  // ---------------------------------------------------------------------------
  // What the loop computes
  // ---------------------------------------------------------------------------

  /** A line whose key names something every object inherits. */
  predicate Offending(line: string) {
    MatchLine(line).Some? && ObjectPrototypeKey(MatchLine(line).value.0)
  }

  /** The value the last matching line with key `k` gives, if any. */
  function LastAssigned(lines: seq<string>, k: string): Option<Field>
    decreases |lines|
  {
    if |lines| == 0 then None
    else
      var m := MatchLine(lines[|lines| - 1]);
      if m.Some? && m.value.0 == k then Some(ConvertedValue(k, m.value.1))
      else LastAssigned(lines[..|lines| - 1], k)
  }

  /** Some line has an inherited key, looked for from the last line back. */
  predicate AnyOffending(lines: seq<string>)
    decreases |lines|
  {
    |lines| > 0 && (AnyOffending(lines[..|lines| - 1]) || Offending(lines[|lines| - 1]))
  }

  function Flags(lines: seq<string>): (fs: seq<bool>)
    ensures |fs| == |lines|
    ensures forall i :: 0 <= i < |lines| ==> fs[i] == Offending(lines[i])
  {
    seq(|lines|, i requires 0 <= i < |lines| => Offending(lines[i]))
  }

  lemma {:induction false} AnyOffendingFlags(lines: seq<string>)
    ensures AnyOffending(lines) <==> true in Flags(lines)
    decreases |lines|
  {
    if |lines| > 0 {
      var n := |lines| - 1;
      AnyOffendingFlags(lines[..n]);
      assert Flags(lines) == Flags(lines[..n]) + [Offending(lines[n])];
    }
  }

  lemma AnyOffendingExists(lines: seq<string>)
    ensures AnyOffending(lines) <==> exists i :: 0 <= i < |lines| && Offending(lines[i])
  {
    AnyOffendingFlags(lines);
    var fs := Flags(lines);
    if true in fs {
      var i :| 0 <= i < |fs| && fs[i];
      assert Offending(lines[i]);
    }
  }

  /** The loop fails exactly on a line with an inherited key. */
  lemma {:induction false} AssignOk(lines: seq<string>)
    ensures Assign(lines).Err? <==> exists i :: 0 <= i < |lines| && Offending(lines[i])
  {
    AssignAny(lines);
    AnyOffendingExists(lines);
  }

  lemma {:induction false} AssignAny(lines: seq<string>)
    ensures Assign(lines).Err? <==> AnyOffending(lines)
    decreases |lines|
  {
    if |lines| > 0 {
      var n := |lines| - 1;
      AssignAny(lines[..n]);
      if Assign(lines[..n]).Ok? {
        StepErr(Assign(lines[..n]).value, lines[n]);
      }
    }
  }

  lemma StepErr(acc: Dict<Field>, line: string)
    ensures Step(acc, line).Err? <==> Offending(line)
  {
  }

  /** Every key reads as the last line that assigned it: a later line wins. */
  lemma {:induction false} AssignLookup(lines: seq<string>, k: string)
    requires Assign(lines).Ok?
    ensures WellFormed(Assign(lines).value)
    ensures Lookup(Assign(lines).value, k) == LastAssigned(lines, k)
    decreases |lines|
  {
    if |lines| > 0 {
      var init := lines[..|lines| - 1];
      AssignLookup(init, k);
      var acc := Assign(init).value;
      var m := MatchLine(lines[|lines| - 1]);
      if m.Some? {
        SetWellFormed(acc, m.value.0, ConvertedValue(m.value.0, m.value.1));
        SetLookup(acc, m.value.0, ConvertedValue(m.value.0, m.value.1), k);
      }
    }
  }

  // ---------------------------------------------------------------------------
  // Renaming
  // ---------------------------------------------------------------------------

  /** The names the three converted keys are given. */
  predicate SnakeName(k: string) {
    k == "next_update" || k == "last_update" || k == "crl_number"
  }

  lemma RenameInjective(a: string, b: string)
    requires !SnakeName(a) && !SnakeName(b) && Rename(a) == Rename(b)
    ensures a == b
  {
  }

  lemma RenameKeepsIndex(k: string)
    ensures IsIndexKey(Rename(k)) <==> IsIndexKey(k)
    ensures IsIndexKey(k) ==> Rename(k) == k
  {
    if k != Rename(k) {
      assert !IsDigit(k[0]) && !IsDigit(Rename(k)[0]);
    }
  }

  /** When no key already has one of the new names, renaming keeps the object well formed. */
  lemma RenamedWellFormed(d: Dict<Field>)
    requires WellFormed(d)
    requires forall i :: 0 <= i < |d| ==> !SnakeName(d[i].0)
    ensures WellFormed(Renamed(d))
  {
    var r := Renamed(d);
    forall i, j | 0 <= i < j < |r| ensures r[i].0 != r[j].0 {
      if r[i].0 == r[j].0 {
        RenameInjective(d[i].0, d[j].0);
      }
    }
    forall i, j | 0 <= i < j < |r| && IsIndexKey(r[j].0) ensures IndexAtMost(r[i].0, r[j].0) {
      RenameKeepsIndex(d[j].0);
      RenameKeepsIndex(d[i].0);
    }
  }

  lemma RenamedLookup(d: Dict<Field>, k: string)
    requires WellFormed(d) && WellFormed(Renamed(d))
    requires forall i :: 0 <= i < |d| ==> !SnakeName(d[i].0)
    requires !SnakeName(k)
    ensures Lookup(Renamed(d), Rename(k)) == Lookup(d, k)
  {
    var r := Renamed(d);
    if HasKey(d, k) {
      var v := Lookup(d, k).value;
      var i :| 0 <= i < |d| && d[i] == (k, v);
      assert r[i] == (Rename(k), v);
      LookupUnique(r, Rename(k), v);
    } else {
      forall i | 0 <= i < |r| ensures r[i].0 != Rename(k) {
        if r[i].0 == Rename(k) {
          RenameInjective(d[i].0, k);
        }
      }
    }
  }

  /** No matching line uses one of the new names as its key. */
  predicate NoSnakeKeys(lines: seq<string>) {
    forall i :: 0 <= i < |lines| && MatchLine(lines[i]).Some? ==> !SnakeName(MatchLine(lines[i]).value.0)
  }

  lemma {:induction false} AssignKeys(lines: seq<string>)
    requires Assign(lines).Ok? && NoSnakeKeys(lines)
    ensures forall i :: 0 <= i < |Assign(lines).value| ==> !SnakeName(Assign(lines).value[i].0)
  {
    var d := Assign(lines).value;
    AssignLookup(lines, "next_update");
    AssignLookup(lines, "last_update");
    AssignLookup(lines, "crl_number");
    NoSnakeAssigned(lines, "next_update");
    NoSnakeAssigned(lines, "last_update");
    NoSnakeAssigned(lines, "crl_number");
    forall i | 0 <= i < |d| ensures !SnakeName(d[i].0) {
      assert HasKey(d, d[i].0);
    }
  }

  lemma {:induction false} NoSnakeAssigned(lines: seq<string>, k: string)
    requires NoSnakeKeys(lines) && SnakeName(k)
    ensures LastAssigned(lines, k) == None
    decreases |lines|
  {
    if |lines| > 0 {
      var init := lines[..|lines| - 1];
      assert NoSnakeKeys(init) by {
        forall i | 0 <= i < |init| ensures init[i] == lines[i] { }
      }
      NoSnakeAssigned(init, k);
    }
  }

  /**
    The parsed record: when no line uses one of the new names itself,
    `next_update`, `last_update` and `crl_number` read as the last
    `nextUpdate`, `lastUpdate` and `crlNumber` lines give them, converted,
    and any other key as the last line that assigned it.
  */
  lemma ParsedFields(output: string, k: string)
    requires ParseCrlOutput(output).Ok?
    requires NoSnakeKeys(Lines(output))
    requires !SnakeName(k)
    ensures Lookup(ParseCrlOutput(output).value, Rename(k)) == LastAssigned(Lines(output), k)
  {
    var lines := Lines(output);
    var d := Assign(lines).value;
    AssignLookup(lines, k);
    AssignKeys(lines);
    RenamedWellFormed(d);
    FromEntriesOfWellFormed(Renamed(d));
    RenamedLookup(d, k);
  }
}
