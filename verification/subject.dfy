/**
  Distinguished-name text in the `/K=v/K=v` form `openssl req -subj` reads
  (lib/create-conf-data/utils.js): `obj2subject`, `subject2obj` and
  `get_subject`.
*/
module Subject {
  import opened Wrappers
  import opened JsObject
  import opened Text
  import opened Errors
  import Percent

  /** One `key=escaped(value)` pair; the value goes through `String` first, as `querystring.escape` does. */
  function Pair(e: (string, Value)): string {
    e.0 + "=" + Percent.MyEsc(ToStr(e.1))
  }

  function Pairs(d: Dict<Value>): (ps: seq<string>)
    ensures |ps| == |d|
    ensures forall i :: 0 <= i < |d| ==> ps[i] == Pair(d[i])
  {
    if |d| == 0 then [] else [Pair(d[0])] + Pairs(d[1..])
  }

  /** `obj2subject(obj)`: the pairs in entry order, joined by "/". */
  function ObjToSubject(d: Dict<Value>): string {
    Join(Pairs(d), "/")
  }

  // ---------------------------------------------------------------------------
  // subject2obj
  // ---------------------------------------------------------------------------

  /** The parts of a subject: one leading "/" dropped, split on "/", trimmed, empty parts dropped. */
  function Parts(subject: string): seq<string> {
    var body := if StartsWith(subject, "/") then subject[1..] else subject;
    NonEmpty(TrimAll(Split(body, '/')))
  }

  /**
    One step of the reduction: the text before the first "=" is the key and
    the text between the first and the second "=" the value; both must be
    non-empty. Assigning to `__proto__` with a string value does nothing.
  */
  function AddPart(acc: Dict<Value>, part: string): Dict<Value> {
    var kv := Split(part, '=');
    if |kv| >= 2 && kv[0] != "" && kv[1] != "" && kv[0] != "__proto__" then
      Set(acc, kv[0], Str(Percent.Unescape(kv[1])))
    else acc
  }

  function Fold(parts: seq<string>): Dict<Value>
    decreases |parts|
  {
    if |parts| == 0 then [] else AddPart(Fold(parts[..|parts| - 1]), parts[|parts| - 1])
  }

  /** `subject2obj(subject)` for a string subject. */
  function SubjectToObj(subject: string): Dict<Value> {
    Fold(Parts(subject))
  }

  /** `subject2obj(v)` for any value: anything but a string has no `startsWith` and throws. */
  function SubjectValueToObj(v: Value): (r: Result<Dict<Value>, Error>)
    ensures r.Ok? <==> v.Str?
    ensures v.Str? ==> r.value == SubjectToObj(v.s)
  {
    if v.Str? then Ok(SubjectToObj(v.s)) else Err(TypeErr("subject.startsWith is not a function"))
  }

  /** Every object `subject2obj` builds is a well-formed object. */
  lemma {:induction false} FoldWellFormed(parts: seq<string>)
    ensures WellFormed(Fold(parts))
    decreases |parts|
  {
    if |parts| > 0 {
      var prev := Fold(parts[..|parts| - 1]);
      FoldWellFormed(parts[..|parts| - 1]);
      var kv := Split(parts[|parts| - 1], '=');
      if |kv| >= 2 && kv[0] != "" && kv[1] != "" && kv[0] != "__proto__" {
        SetWellFormed(prev, kv[0], Str(Percent.Unescape(kv[1])));
      }
    }
  }

  /** Every value `subject2obj` stores is a string. */
  lemma {:induction false} FoldStrings(parts: seq<string>)
    ensures forall i :: 0 <= i < |Fold(parts)| ==> Fold(parts)[i].1.Str?
    decreases |parts|
  {
    if |parts| > 0 {
      var prev := Fold(parts[..|parts| - 1]);
      FoldStrings(parts[..|parts| - 1]);
      var kv := Split(parts[|parts| - 1], '=');
      if |kv| >= 2 && kv[0] != "" && kv[1] != "" && kv[0] != "__proto__" {
        var r := Set(prev, kv[0], Str(Percent.Unescape(kv[1])));
        SetElements(prev, kv[0], Str(Percent.Unescape(kv[1])));
        forall i | 0 <= i < |r| ensures r[i].1.Str? {
          assert r[i] in r;
        }
      }
    }
  }

  // ---------------------------------------------------------------------------
  // get_subject
  // ---------------------------------------------------------------------------

  /**
    `get_subject(conf, main)`: "/" followed by `obj2subject` of the section
    that `conf[main].distinguished_name` names. A missing main section throws
    when its `distinguished_name` is read, a missing name section when its
    entries are taken.
  */
  function GetSubject(conf: Dict<Dict<Value>>, main: string): (r: Result<string, Error>)
    ensures r.Ok? <==> HasKey(conf, main) && HasKey(conf, ToStr(Get(Lookup(conf, main).value, "distinguished_name")))
    ensures r.Ok? ==> StartsWith(r.value, "/")
  {
    match Lookup(conf, main)
    case None => Err(TypeErr("cannot read distinguished_name of undefined"))
    case Some(section) =>
      match Lookup(conf, ToStr(Get(section, "distinguished_name")))
      case None => Err(TypeErr("cannot convert undefined to object"))
      case Some(dn) => Ok("/" + ObjToSubject(dn))
  }

  // ---------------------------------------------------------------------------
  // Round trip
  // ---------------------------------------------------------------------------

  predicate KeyOk(k: string) {
    |k| > 0 && '/' !in k && '=' !in k && !IsJsSpace(k[0]) && k != "__proto__"
  }

  predicate ValueOk(v: Value) {
    v.Str? && |v.s| > 0 && v.s[|v.s| - 1] != ' '
  }

  /**
    The objects that survive the trip: a well-formed object of non-empty
    string values that do not end in a space, under non-empty keys holding no
    "/" or "=" and not starting with white space (the key `__proto__` is lost).
  */
  predicate RoundTrips(d: Dict<Value>) {
    WellFormed(d) && forall i :: 0 <= i < |d| ==> KeyOk(d[i].0) && ValueOk(d[i].1)
  }

  /** What the escaped value looks like: non-empty, no "/" or "=", not ending in white space. */
  lemma EscapedValue(v: string)
    requires |v| > 0 && v[|v| - 1] != ' '
    ensures var esc := Percent.MyEsc(v);
      |esc| > 0 && '/' !in esc && '=' !in esc && !IsJsSpace(esc[|esc| - 1])
  {
    var esc := Percent.MyEsc(v);
    Percent.MyEscShape(v);
    forall i | 0 <= i < |esc| ensures esc[i] != '/' && esc[i] != '=' {
      EscapedCharPlain(esc[i]);
    }
    EscapedCharPlain(esc[|esc| - 1]);
  }

  /** The characters of an escaped value are none of '/', '=' or a space other than ' '. */
  lemma EscapedCharPlain(c: char)
    requires Percent.EscapedChar(c)
    ensures c != '/' && c != '='
    ensures c != ' ' ==> !IsJsSpace(c)
  {
  }

  lemma PairText(e: (string, Value))
    requires KeyOk(e.0) && ValueOk(e.1)
    ensures '/' !in Pair(e) && Pair(e) != ""
    ensures Trim(Pair(e)) == Pair(e)
    ensures Split(Pair(e), '=') == [e.0, Percent.MyEsc(e.1.s)]
  {
    var esc := Percent.MyEsc(e.1.s);
    EscapedValue(e.1.s);
    var p := Pair(e);
    assert p == e.0 + "=" + esc;
    assert p[|p| - 1] == esc[|esc| - 1];
    TrimIdentity(p);
    assert Join([e.0, esc], "=") == p;
    SplitJoin([e.0, esc], '=');
  }

  /** Reading one pair back assigns the entry it was written from. */
  lemma AddPair(acc: Dict<Value>, e: (string, Value))
    requires KeyOk(e.0) && ValueOk(e.1)
    ensures AddPart(acc, Pair(e)) == Set(acc, e.0, e.1)
  {
    PairText(e);
    Percent.UnescapeMyEsc(e.1.s);
  }

  lemma {:induction false} FoldPairs(d: Dict<Value>)
    requires forall i :: 0 <= i < |d| ==> KeyOk(d[i].0) && ValueOk(d[i].1)
    ensures Fold(Pairs(d)) == FromEntries(d)
    decreases |d|
  {
    if |d| > 0 {
      var n := |d| - 1;
      assert Pairs(d)[..n] == Pairs(d[..n]);
      FoldPairs(d[..n]);
      AddPair(Fold(Pairs(d[..n])), d[n]);
      assert d[..n] == d[..|d| - 1];
    }
  }

  /** `subject2obj("/" + obj2subject(d))` gives `d` back. */
  lemma SubjectRoundTrip(d: Dict<Value>)
    requires RoundTrips(d)
    ensures SubjectToObj("/" + ObjToSubject(d)) == d
  {
    var text := "/" + ObjToSubject(d);
    assert StartsWith(text, "/");
    assert text[1..] == ObjToSubject(d);
    if |d| == 0 {
      assert Split("", '/') == [""];
      assert TrimAll([""]) == [""];
    } else {
      PartsOfSubject(d);
      FoldPairs(d);
      FromEntriesOfWellFormed(d);
    }
  }

  /** A non-empty subject splits back into exactly the pairs it was joined from. */
  lemma PartsOfSubject(d: Dict<Value>)
    requires RoundTrips(d) && |d| > 0
    ensures Parts("/" + ObjToSubject(d)) == Pairs(d)
  {
    var text := "/" + ObjToSubject(d);
    assert StartsWith(text, "/");
    assert text[1..] == ObjToSubject(d);
    var ps := Pairs(d);
    forall i | 0 <= i < |ps| ensures '/' !in ps[i] && ps[i] != "" && Trim(ps[i]) == ps[i] {
      PairText(d[i]);
    }
    SplitJoin(ps, '/');
    assert TrimAll(ps) == ps;
    NonEmptyIdentity(ps);
  }

  /** The subject a config builder reports reads back as its distinguished-name section. */
  lemma GetSubjectRoundTrip(conf: Dict<Dict<Value>>, main: string)
    requires GetSubject(conf, main).Ok?
    requires RoundTrips(Lookup(conf, ToStr(Get(Lookup(conf, main).value, "distinguished_name"))).value)
    ensures SubjectToObj(GetSubject(conf, main).value)
      == Lookup(conf, ToStr(Get(Lookup(conf, main).value, "distinguished_name"))).value
  {
    SubjectRoundTrip(Lookup(conf, ToStr(Get(Lookup(conf, main).value, "distinguished_name"))).value);
  }
}
