/**
  `get_child` of a CA (lib/pki/ca.js and lib/pki/pki-ca.js, the same code in
  both): the first child, in the order of the `children` object, whose serial,
  name or subject matches. A found child is given by its position in that
  object.
*/
module ChildLookup {
  import opened Wrappers
  import opened JsObject
  import opened Errors
  import opened Text
  import opened Members
  import Subject

  // ---------------------------------------------------------------------------
  // By serial
  // ---------------------------------------------------------------------------

  /** `parseInt(k, 16)` of every key, in order; `None` stands for `NaN`. */
  function KeySerials(children: Dict<Member>): (vs: seq<Option<int>>)
    ensures |vs| == |children|
    ensures forall j :: 0 <= j < |children| ==> vs[j] == ParseIntHex(children[j].0)
  {
    seq(|children|, j requires 0 <= j < |children| => ParseIntHex(children[j].0))
  }

  /** `parseInt(k, 16) === ser`; a `NaN` on either side never matches. */
  predicate SerialMatches(v: Option<int>, ser: Option<int>) {
    ser.Some? && v == ser
  }

  /** The first position from `n` on whose parsed key is `ser`. */
  function FindSerialFrom(vs: seq<Option<int>>, ser: Option<int>, n: nat): (r: Option<nat>)
    requires n <= |vs|
    ensures r.Some? ==> n <= r.value < |vs| && SerialMatches(vs[r.value], ser)
    ensures r.Some? ==> forall j :: n <= j < r.value ==> !SerialMatches(vs[j], ser)
    ensures r.None? ==> forall j :: n <= j < |vs| ==> !SerialMatches(vs[j], ser)
    decreases |vs| - n
  {
    if n == |vs| then None
    else if SerialMatches(vs[n], ser) then Some(n)
    else FindSerialFrom(vs, ser, n + 1)
  }

  /** `find_child_by_serial(ser)`: the first child whose key parses to `ser`. */
  function FindBySerial(children: Dict<Member>, ser: Option<int>): (r: Option<nat>)
    ensures r.Some? ==> r.value < |children| && SerialMatches(KeySerials(children)[r.value], ser)
    ensures r.Some? ==> forall j :: 0 <= j < r.value ==> !SerialMatches(KeySerials(children)[j], ser)
    ensures r.None? ==> forall j :: 0 <= j < |children| ==> !SerialMatches(KeySerials(children)[j], ser)
  {
    FindSerialFrom(KeySerials(children), ser, 0)
  }

  // ---------------------------------------------------------------------------
  // By name
  // ---------------------------------------------------------------------------

  /** The first child from position `n` on whose `name` is `===` to `name`. */
  function FindByName(children: Dict<Member>, name: Json, n: nat): (r: Option<nat>)
    requires n <= |children|
    ensures r.Some? ==> n <= r.value < |children| && JsonStrictEq(children[r.value].1.name, name)
    ensures r.Some? ==> forall j :: n <= j < r.value ==> !JsonStrictEq(children[j].1.name, name)
    ensures r.None? ==> forall j :: n <= j < |children| ==> !JsonStrictEq(children[j].1.name, name)
    decreases |children| - n
  {
    if n == |children| then None
    else if JsonStrictEq(children[n].1.name, name) then Some(n)
    else FindByName(children, name, n + 1)
  }

  // ---------------------------------------------------------------------------
  // By subject
  // ---------------------------------------------------------------------------

  /**
    The entries of the subject to look for: a string is read with
    `subject2obj`; an object gives its own entries; an array its indexed
    items; any other value has none.
  */
  function Needle(subject: Json): Dict<Json> {
    match subject
    case Obj(fs) => fs
    case Leaf(Str(s)) => AsNeedle(Subject.SubjectToObj(s))
    case Leaf(Arr(items)) => seq(|items|, i requires 0 <= i < |items| => (NatToDecimal(i), Leaf(Str(items[i]))))
    case Leaf(_) => []
  }

  /** The entries of an object of primitives. */
  function AsNeedle(d: Dict<Value>): (nd: Dict<Json>)
    ensures |nd| == |d|
    ensures forall i :: 0 <= i < |d| ==> nd[i] == (d[i].0, Leaf(d[i].1))
  {
    seq(|d|, i requires 0 <= i < |d| => (d[i].0, Leaf(d[i].1)))
  }

  /**
    `haysack[key] === value` on an object built by `subject2obj`: an own key
    is compared; a missing key reads `undefined`, except that a key every
    object inherits reads a function, which equals nothing here.
  */
  predicate FieldMatches(haysack: Dict<Value>, key: string, value: Json) {
    if HasKey(haysack, key) then JsonStrictEq(Leaf(Get(haysack, key)), value)
    else !ObjectPrototypeKey(key) && value == Leaf(Undefined)
  }

  /** `isNeedleInHaysack`: every entry of the needle is matched. */
  predicate NeedleIn(haysack: Dict<Value>, needle: Dict<Json>) {
    forall i :: 0 <= i < |needle| ==> FieldMatches(haysack, needle[i].0, needle[i].1)
  }

  /** `subject2obj(v.subject)` of every child, in order: `None` where the subject is not a string and reading it throws. */
  function ChildSubjects(children: Dict<Member>): (hs: seq<Option<Dict<Value>>>)
    ensures |hs| == |children|
    ensures forall j :: 0 <= j < |children| ==>
      hs[j] == (if children[j].1.subject.Leaf? && children[j].1.subject.v.Str?
                then Some(Subject.SubjectToObj(children[j].1.subject.v.s)) else None)
  {
    seq(|children|, j requires 0 <= j < |children| =>
      if children[j].1.subject.Leaf? && children[j].1.subject.v.Str?
      then Some(Subject.SubjectToObj(children[j].1.subject.v.s)) else None)
  }

  /** A subject that was read and does not hold the needle. */
  predicate Passed(h: Option<Dict<Value>>, needle: Dict<Json>) {
    h.Some? && !NeedleIn(h.value, needle)
  }

  /**
    The first position from `n` on whose subject holds the needle. The search
    reads each subject in turn, so an unreadable subject before the match
    makes it throw.
  */
  function FindSubjectFrom(hs: seq<Option<Dict<Value>>>, needle: Dict<Json>, n: nat): (r: Result<Option<nat>, Error>)
    requires n <= |hs|
    ensures r.Ok? && r.value.Some? ==>
      n <= r.value.value < |hs| && hs[r.value.value].Some? && NeedleIn(hs[r.value.value].value, needle)
    ensures r.Ok? ==> forall j :: n <= j < (if r.value.Some? then r.value.value else |hs|) ==> Passed(hs[j], needle)
    ensures r.Err? ==>
      r.error.TypeErr? && exists j :: n <= j < |hs| && hs[j].None? && forall i :: n <= i < j ==> Passed(hs[i], needle)
    decreases |hs| - n
  {
    if n == |hs| then Ok(None)
    else if hs[n].None? then Err(TypeErr("subject.startsWith is not a function"))
    else if NeedleIn(hs[n].value, needle) then Ok(Some(n))
    else FindSubjectFrom(hs, needle, n + 1)
  }

  /** The subject search of `get_child`. */
  function FindBySubject(children: Dict<Member>, needle: Dict<Json>): (r: Result<Option<nat>, Error>)
    ensures r.Ok? && r.value.Some? ==>
      (&& r.value.value < |children| && ChildSubjects(children)[r.value.value].Some?
       && NeedleIn(ChildSubjects(children)[r.value.value].value, needle))
    ensures r.Ok? ==>
      forall j :: 0 <= j < (if r.value.Some? then r.value.value else |children|) ==> Passed(ChildSubjects(children)[j], needle)
    ensures r.Err? ==> r.error.TypeErr?
  {
    FindSubjectFrom(ChildSubjects(children), needle, 0)
  }

  // ---------------------------------------------------------------------------
  // get_child
  // ---------------------------------------------------------------------------

  /** The own fields a destructuring pattern reads: a primitive has none of the names asked for. */
  function FieldsOf(arg: Json): Dict<Json> {
    if arg.Obj? then arg.fields else []
  }

  /** `typeof serial === 'number' ? serial : other`. */
  function NumberOr(serial: Json, other: Option<int>): Option<int> {
    match serial
    case Leaf(Num(n)) => Some(n)
    case _ => other
  }

  /**
    What the source parses for a `{serial}` object: a number serial is used
    as it is, anything else is parsed from the argument object's own text,
    which is no number.
  */
  function SerialAsWritten(serial: Json): (r: Option<int>)
    ensures serial.Leaf? && serial.v.Num? ==> r == Some(serial.v.n)
    ensures !(serial.Leaf? && serial.v.Num?) ==> r == None
  {
    ObjectTextIsNaN();
    NumberOr(serial, ParseIntHex(ObjectText))
  }

  /** `typeof serial === 'number' ? serial : parseInt(serial, 16)`, the number the `{serial}` form means. */
  function ObjectSerial(serial: Json): Option<int> {
    match serial
    case Leaf(Num(n)) => Some(n)
    case Leaf(v) => ParseIntHex(ToStr(v))
    case Obj(_) => ParseIntHex(ObjectText)
  }

  /**
    The search both versions share. `fixed` selects what a `{serial}` object
    with a string serial is parsed from: the serial, or (as the source has it)
    the argument object itself, whose text `[object Object]` is no number.
  */
  function Query(ca: Member, arg: Json, fixed: bool): Result<Option<nat>, Error> {
    var cs := ca.children;
    if arg == Leaf(Null) then Err(TypeErr("cannot destructure null"))
    else if arg.Leaf? && arg.v.Str? then Ok(FindBySerial(cs, ParseIntHex(arg.v.s)))
    else if arg.Leaf? && arg.v.Num? then Ok(FindBySerial(cs, Some(arg.v.n)))
    else
      var fs := FieldsOf(arg);
      var serial, name, subject := JsonGet(fs, "serial"), JsonGet(fs, "name"), JsonGet(fs, "subject");
      if JsonTruthy(serial) then
        var ser := if fixed then ObjectSerial(serial) else SerialAsWritten(serial);
        Ok(FindBySerial(cs, ser))
      else if JsonTruthy(name) then Ok(FindByName(cs, name, 0))
      else if JsonTruthy(subject) then FindBySubject(cs, Needle(subject))
      else Err(Thrown("expecting serial/name/subject to be provided"))
  }

  /**
    `get_child(arg)` with a `{serial}` object parsed as its serial: a string
    searches by its hexadecimal value, a number by itself, an object by its
    first truthy field among `serial`, `name` and `subject`.
  */
  function GetChild(ca: Member, arg: Json): (r: Result<Option<nat>, Error>)
    ensures r.Ok? && r.value.Some? ==> r.value.value < |ca.children|
    ensures arg == Leaf(Null) ==> r.Err? && r.error.TypeErr?
    ensures arg.Leaf? && arg.v.Str? ==> r == Ok(FindBySerial(ca.children, ParseIntHex(arg.v.s)))
    ensures arg.Leaf? && arg.v.Num? ==> r == Ok(FindBySerial(ca.children, Some(arg.v.n)))
    ensures arg.Obj? && JsonTruthy(JsonGet(arg.fields, "serial")) ==>
      r == Ok(FindBySerial(ca.children, ObjectSerial(JsonGet(arg.fields, "serial"))))
    ensures arg.Obj? && !JsonTruthy(JsonGet(arg.fields, "serial")) && JsonTruthy(JsonGet(arg.fields, "name")) ==>
      r == Ok(FindByName(ca.children, JsonGet(arg.fields, "name"), 0))
    ensures (arg.Obj? && !JsonTruthy(JsonGet(arg.fields, "serial")) && !JsonTruthy(JsonGet(arg.fields, "name"))
             && JsonTruthy(JsonGet(arg.fields, "subject"))) ==>
      r == FindBySubject(ca.children, Needle(JsonGet(arg.fields, "subject")))
    ensures (arg.Obj? && !JsonTruthy(JsonGet(arg.fields, "serial")) && !JsonTruthy(JsonGet(arg.fields, "name"))
             && !JsonTruthy(JsonGet(arg.fields, "subject"))) ==> r.Err? && r.error.Thrown?
  {
    Query(ca, arg, true)
  }

  /** `get_child(arg)` as the source has it: a `{serial}` object whose serial is not a number finds nothing. */
  function GetChildAsWritten(ca: Member, arg: Json): (r: Result<Option<nat>, Error>)
    ensures arg.Obj? && JsonTruthy(JsonGet(arg.fields, "serial")) && !JsonGet(arg.fields, "serial").Leaf? ==> r == Ok(None)
    ensures (arg.Obj? && JsonTruthy(JsonGet(arg.fields, "serial")) && JsonGet(arg.fields, "serial").Leaf?
             && !JsonGet(arg.fields, "serial").v.Num?) ==> r == Ok(None)
    ensures !(arg.Obj? && JsonTruthy(JsonGet(arg.fields, "serial"))) ==> r == GetChild(ca, arg)
  {
    QueryAsWritten(ca, arg);
    Query(ca, arg, false)
  }

  /** The two readings of the selector differ only on an object's truthy `serial`, where the source's finds nothing unless it is a number. */
  lemma QueryAsWritten(ca: Member, arg: Json)
    ensures !(arg.Obj? && JsonTruthy(JsonGet(arg.fields, "serial"))) ==> Query(ca, arg, false) == Query(ca, arg, true)
    ensures (arg.Obj? && JsonTruthy(JsonGet(arg.fields, "serial"))
             && !(JsonGet(arg.fields, "serial").Leaf? && JsonGet(arg.fields, "serial").v.Num?)) ==>
      Query(ca, arg, false) == Ok(None)
  {
    if arg.Obj? && JsonTruthy(JsonGet(arg.fields, "serial")) {
      assert FindBySerial(ca.children, None) == None;
    }
  }

  // ---------------------------------------------------------------------------
  // Properties
  // ---------------------------------------------------------------------------

  /**
    A child whose key parses to a number no earlier key parses to is found by
    that key, whether given alone or as `{serial: key}`; the source's version
    finds it alone but never in the object form.
  */
  lemma SerialFindsChild(ca: Member, i: nat)
    requires i < |ca.children| && ParseIntHex(ca.children[i].0).Some?
    requires forall j :: 0 <= j < i ==> ParseIntHex(ca.children[j].0) != ParseIntHex(ca.children[i].0)
    ensures GetChild(ca, Leaf(Str(ca.children[i].0))) == Ok(Some(i))
    ensures GetChild(ca, Obj([("serial", Leaf(Str(ca.children[i].0)))])) == Ok(Some(i))
    ensures GetChildAsWritten(ca, Obj([("serial", Leaf(Str(ca.children[i].0)))])) == Ok(None)
  {
    var k := ca.children[i].0;
    FirstSerial(ca.children, ParseIntHex(k), i);
    SerialObjectQueries(ca, k);
  }

  /** What both readings make of `{serial: k}` for a key `k` that parses. */
  lemma SerialObjectQueries(ca: Member, k: string)
    requires ParseIntHex(k).Some?
    ensures GetChild(ca, Obj([("serial", Leaf(Str(k)))])) == Ok(FindBySerial(ca.children, ParseIntHex(k)))
    ensures GetChildAsWritten(ca, Obj([("serial", Leaf(Str(k)))])) == Ok(None)
  {
    SerialField(k);
    assert ObjectSerial(Leaf(Str(k))) == ParseIntHex(k);
  }

  /** `{serial: k}` holds a truthy serial `k` when `k` parses. */
  lemma SerialField(k: string)
    requires ParseIntHex(k).Some?
    ensures JsonGet([("serial", Leaf(Str(k)))], "serial") == Leaf(Str(k))
    ensures JsonTruthy(Leaf(Str(k)))
  {
    LookupFirst([("serial", Leaf(Str(k)))], 0);
  }

  lemma FirstSerial(cs: Dict<Member>, ser: Option<int>, i: nat)
    requires i < |cs| && SerialMatches(ParseIntHex(cs[i].0), ser)
    requires forall j :: 0 <= j < i ==> !SerialMatches(ParseIntHex(cs[j].0), ser)
    ensures FindBySerial(cs, ser) == Some(i)
  {
    var vs := KeySerials(cs);
    forall j | 0 <= j < i
      ensures !SerialMatches(vs[j], ser)
    {
      assert vs[j] == ParseIntHex(cs[j].0);
    }
    FirstMatch(vs, ser, i);
  }

  /** The search stops at the first match. */
  lemma FirstMatch(vs: seq<Option<int>>, ser: Option<int>, i: nat)
    requires i < |vs| && SerialMatches(vs[i], ser)
    requires forall j :: 0 <= j < i ==> !SerialMatches(vs[j], ser)
    ensures FindSerialFrom(vs, ser, 0) == Some(i)
  {
  }

  /** A name no earlier child has finds the child bearing it, and `{name}` finds it too. */
  lemma NameFindsChild(ca: Member, i: nat)
    requires i < |ca.children| && JsonStrictEq(ca.children[i].1.name, ca.children[i].1.name)
    requires JsonTruthy(ca.children[i].1.name)
    requires forall j :: 0 <= j < i ==> !JsonStrictEq(ca.children[j].1.name, ca.children[i].1.name)
    ensures GetChild(ca, Obj([("name", ca.children[i].1.name)])) == Ok(Some(i))
  {
    var name := ca.children[i].1.name;
    var arg := Obj([("name", name)]);
    assert JsonGet(arg.fields, "name") == name by { LookupFirst(arg.fields, 0); }
    assert JsonGet(arg.fields, "serial") == Leaf(Undefined);
    var r := FindByName(ca.children, name, 0);
    assert r.Some?;
  }

  /** The member's subject is a string, so `subject2obj` can read it. */
  predicate ReadableSubject(c: Member) {
    c.subject.Leaf? && c.subject.v.Str?
  }

  /**
    Every field of a child's own subject text is matched by that subject: a
    child is found by the subject it was issued with unless an earlier child
    holds the same fields.
  */
  lemma OwnSubjectHolds(c: Member)
    requires ReadableSubject(c)
    ensures NeedleIn(Subject.SubjectToObj(c.subject.v.s), Needle(c.subject))
  {
    var parts := Subject.Parts(c.subject.v.s);
    Subject.FoldWellFormed(parts);
    Subject.FoldStrings(parts);
    OwnFieldsHold(Subject.Fold(parts));
  }

  /** A well-formed object of strings holds each of its own entries. */
  lemma OwnFieldsHold(h: Dict<Value>)
    requires WellFormed(h)
    requires forall i :: 0 <= i < |h| ==> h[i].1.Str?
    ensures NeedleIn(h, AsNeedle(h))
  {
    var nd := AsNeedle(h);
    forall i | 0 <= i < |nd| ensures FieldMatches(h, nd[i].0, nd[i].1) {
      LookupFirst(h, i);
    }
  }
}
