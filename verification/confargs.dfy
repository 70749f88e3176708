/**
  What the config builders of lib/create-conf-data/for/ have in common: how
  they read their arguments, the numbered `alt_names` section, the record they
  return, and what it means for a config's cross-section references to resolve.
*/
module ConfArgs {
  import opened Wrappers
  import opened JsObject
  import opened Errors
  import opened ConfData
  import Subject

  // ---------------------------------------------------------------------------
  // Reading arguments
  // ---------------------------------------------------------------------------

  /** A field that ends up in a config entry: a primitive or a string array, never a nested object. */
  function Field(j: Json): (r: Result<Value, Error>)
    ensures r.Ok? <==> j.Leaf?
    ensures r.Ok? ==> r.value == j.v
  {
    match j
    case Leaf(v) => Ok(v)
    case Obj(_) => Err(Unmodelled("an object where a primitive or a string array is expected"))
  }

  /**
    A field that is only checked with `??` and for truthiness (`out_buffer`):
    an object behaves there exactly like `true`.
  */
  function Flag(j: Json): (v: Value)
    ensures Truthy(v) <==> JsonTruthy(j)
    ensures Nullish(v) <==> j.Leaf? && Nullish(j.v)
  {
    match j
    case Leaf(v) => v
    case Obj(_) => Bool(true)
  }

  /** A property read `arg.k` on an argument that is not `null` or `undefined`; primitives and arrays have none of the named fields. */
  function Read(j: Json, k: string): (r: Json)
    ensures !j.Obj? ==> r == Leaf(Undefined)
  {
    if j.Obj? then JsonGet(j.fields, k) else Leaf(Undefined)
  }

  /** A destructuring default `{k = d}`: it replaces `undefined` only, not `null`. */
  function Default(v: Value, d: Value): (r: Value)
    ensures v.Undefined? ==> r == d
    ensures !v.Undefined? ==> r == v
  {
    if v.Undefined? then d else v
  }

  predicate NullishJson(j: Json) {
    j.Leaf? && Nullish(j.v)
  }

  /** `typeof x === 'object' && x?.hasOwnProperty(key)`: the first argument carries the named fields. */
  predicate SpreadForm(arg0: Json, key: string) {
    arg0.Obj? && HasKey(arg0.fields, key)
  }

  /** The own enumerable named properties an options argument contributes to a spread. */
  function OptionsDict(options: Json): Dict<Json> {
    if options.Obj? then options.fields else []
  }

  /**
    Field `k` of `options`, or, in the spread form, of `{...options, ...arg0}`:
    the first argument's own field when it has one, the options' otherwise.
  */
  function MergedRead(arg0: Json, key: string, options: Json, k: string): Json {
    if SpreadForm(arg0, key) && HasKey(arg0.fields, k) then JsonGet(arg0.fields, k) else Read(options, k)
  }

  /** `MergedRead` is a read of the spread object. */
  lemma MergedReadIsSpread(arg0: Json, key: string, options: Json, k: string)
    requires SpreadForm(arg0, key)
    requires WellFormed(arg0.fields) && WellFormed(OptionsDict(options))
    ensures MergedRead(arg0, key, options, k) == JsonGet(Merge(OptionsDict(options), arg0.fields), k)
  {
    MergeLookup(OptionsDict(options), arg0.fields, k);
  }

  /** The fields read by `create_conf_data_for_ca`, `..._for_ca_csr` and `..._for_digital_signature`. */
  datatype CaStyle = CaStyle(
    commonName: Value, country: Value, state: Value, city: Value,
    organizationName: Value, organizationUnit: Value,
    altNames: Value, crlUrl: Value, ocspUrl: Value, outBuffer: Value)

  /** The first argument carries everything when its `common_name` is truthy. */
  predicate CaObjectForm(arg0: Json) {
    arg0.Obj? && JsonTruthy(JsonGet(arg0.fields, "common_name"))
  }

  /**
    The argument handling of the CA-style builders: the second parameter is
    destructured (so `null` there throws), `arguments?.[0].common_name` is
    read (so a `null` or `undefined` first argument throws), and when that is
    truthy every field, `common_name` included, comes from the first argument
    and the second is ignored. `urls` says whether the builder reads
    `alt_names`, `crl_url` and `ocsp_url` at all.
  */
  function ReadCaStyle(arg0: Json, options: Json, urls: bool): (r: Result<CaStyle, Error>)
    ensures NullishJson(arg0) || options == Leaf(Null) ==> r.Err? && r.error.TypeErr?
    ensures r.Ok? && !CaObjectForm(arg0) ==> arg0 == Leaf(r.value.commonName)
    ensures r.Ok? && CaObjectForm(arg0) ==> Leaf(r.value.commonName) == JsonGet(arg0.fields, "common_name")
    ensures r.Ok? && !urls ==> r.value.altNames == r.value.crlUrl == r.value.ocspUrl == Undefined
  {
    if options == Leaf(Null) then Err(TypeErr("cannot destructure the options argument: it is null"))
    else if NullishJson(arg0) then Err(TypeErr("cannot read common_name of the first argument"))
    else
      var objectForm := CaObjectForm(arg0);
      var src := if objectForm then arg0 else options;
      var cn :- if objectForm then Field(JsonGet(arg0.fields, "common_name")) else Field(arg0);
      var country :- Field(Read(src, "country"));
      var state :- Field(Read(src, "state"));
      var city :- Field(Read(src, "city"));
      var org :- Field(Read(src, "organization_name"));
      var unit :- Field(Read(src, "organization_unit"));
      var alt :- if urls then Field(Read(src, "alt_names")) else Ok(Undefined);
      var crl :- if urls then Field(Read(src, "crl_url")) else Ok(Undefined);
      var ocsp :- if urls then Field(Read(src, "ocsp_url")) else Ok(Undefined);
      Ok(CaStyle(cn, country, state, city, org, unit, alt, crl, ocsp, Flag(Read(src, "out_buffer"))))
  }

  /** In the object form the second argument plays no part. */
  lemma CaObjectFormIgnoresOptions(arg0: Json, o1: Json, o2: Json, urls: bool)
    requires CaObjectForm(arg0)
    requires o1 != Leaf(Null) && o2 != Leaf(Null)
    ensures ReadCaStyle(arg0, o1, urls) == ReadCaStyle(arg0, o2, urls)
  {
  }

  /** The `req_distinguished_name` section of the CA-style builders, `??` defaults filled in. */
  function CaStyleDn(a: CaStyle): (dn: Dict<Value>)
    ensures KeyList(dn) == ["C", "ST", "L", "O", "OU", "CN"]
    ensures forall i :: 0 <= i < 5 ==> !Nullish(dn[i].1)
    ensures dn[5].1 == a.commonName
  {
    [ ("C", Coalesce(a.country, Str("US"))),
      ("ST", Coalesce(a.state, Str("State"))),
      ("L", Coalesce(a.city, Str("City"))),
      ("O", Coalesce(a.organizationName, Str("My Organization"))),
      ("OU", Coalesce(a.organizationUnit, Str("My Organization"))),
      ("CN", a.commonName) ]
  }

  lemma CaStyleDnCommonName(a: CaStyle)
    ensures Get(CaStyleDn(a), "CN") == a.commonName
  {
    LookupFirst(CaStyleDn(a), 5);
  }

  /** The `[req]` section: the name section and one extension setting. */
  function ReqSection(extKey: string, extSection: string): Dict<Value> {
    [("distinguished_name", Str("req_distinguished_name")), (extKey, Str(extSection)), ("prompt", Str("no"))]
  }

  // ---------------------------------------------------------------------------
  // Numbered entries: `list.reduce((acc, x, i) => { acc[`P.${i + 1}`] = x; ... }, {})`
  // ---------------------------------------------------------------------------

  function NumberedKey(prefix: string, n: nat): string {
    prefix + "." + NatToDecimal(n)
  }

  /** The reduction as written: one assignment per element, in order. */
  function Numbered(prefix: string, vals: seq<Value>): Dict<Value>
    decreases |vals|
  {
    if |vals| == 0 then []
    else Set(Numbered(prefix, vals[..|vals| - 1]), NumberedKey(prefix, |vals|), vals[|vals| - 1])
  }

  /** The list the reduction is meant to produce: `P.1 = x₀`, `P.2 = x₁`, … */
  function Listed(prefix: string, vals: seq<Value>): (d: Dict<Value>)
    ensures |d| == |vals|
    ensures forall i :: 0 <= i < |vals| ==> d[i] == (NumberedKey(prefix, i + 1), vals[i])
  {
    seq(|vals|, i requires 0 <= i < |vals| => (NumberedKey(prefix, i + 1), vals[i]))
  }

  lemma NumberedKeyInjective(prefix: string, m: nat, n: nat)
    requires NumberedKey(prefix, m) == NumberedKey(prefix, n)
    ensures m == n
  {
    var a := NumberedKey(prefix, m);
    assert a[|prefix| + 1..] == NatToDecimal(m);
    assert NumberedKey(prefix, n)[|prefix| + 1..] == NatToDecimal(n);
  }

  /** A numbered key holds a "." and so is never an array index. */
  lemma NumberedKeyNotIndex(prefix: string, n: nat)
    ensures !IsIndexKey(NumberedKey(prefix, n))
  {
    var k := NumberedKey(prefix, n);
    assert k[|prefix|] == '.';
    assert !IsDigit(k[|prefix|]);
  }

  /** The reduction lists every element under its 1-based number, in order, and nothing else. */
  lemma {:induction false} NumberedIsListed(prefix: string, vals: seq<Value>)
    ensures Numbered(prefix, vals) == Listed(prefix, vals)
    decreases |vals|
  {
    if |vals| > 0 {
      var n := |vals|;
      var init := vals[..n - 1];
      var k := NumberedKey(prefix, n);
      NumberedIsListed(prefix, init);
      var prev := Listed(prefix, init);
      assert !HasKey(prev, k) by {
        forall i | 0 <= i < |prev| ensures prev[i].0 != k {
          if prev[i].0 == k {
            NumberedKeyInjective(prefix, i + 1, n);
          }
        }
      }
      NumberedKeyNotIndex(prefix, n);
      InsertAtEnd(prev, k, vals[n - 1]);
      assert prev + [(k, vals[n - 1])] == Listed(prefix, vals);
    }
  }

  lemma ListedWellFormed(prefix: string, vals: seq<Value>)
    ensures WellFormed(Listed(prefix, vals))
  {
    var d := Listed(prefix, vals);
    forall i, j | 0 <= i < j < |d| ensures d[i].0 != d[j].0 {
      if d[i].0 == d[j].0 {
        NumberedKeyInjective(prefix, i + 1, j + 1);
      }
    }
    forall j | 0 <= j < |d| ensures !IsIndexKey(d[j].0) {
      NumberedKeyNotIndex(prefix, j + 1);
    }
  }

  /** The elements of a string array. */
  function Strs(items: seq<string>): (vs: seq<Value>)
    ensures |vs| == |items|
    ensures forall i :: 0 <= i < |items| ==> vs[i] == Str(items[i])
  {
    seq(|items|, i requires 0 <= i < |items| => Str(items[i]))
  }

  // ---------------------------------------------------------------------------
  // The builders' result
  // ---------------------------------------------------------------------------

  /** `{conf, name, subject}`, together with the sections the conf was rendered from. */
  datatype Built = Built(conf: ConfOut, name: Value, subject: string, sections: Sections)

  /** The distinguished-name section a `[req]` section names, when both are there. */
  function DnSection(sections: Sections): Option<Dict<Value>> {
    match Lookup(sections, "req")
    case None => None
    case Some(req) => Lookup(sections, ToStr(Get(req, "distinguished_name")))
  }

  /**
    The reported subject reads back, through `subject2obj`, as the section
    `[req]` names for the distinguished name, whenever that section's entries
    survive the trip.
  */
  predicate SubjectMatchesDn(b: Built) {
    && DnSection(b.sections).Some?
    && (Subject.RoundTrips(DnSection(b.sections).value) ==> Subject.SubjectToObj(b.subject) == DnSection(b.sections).value)
  }

  /** Render the sections and read the subject off the `[req]` section. */
  function Finish(sections: Sections, name: Value, outBuffer: Value): (r: Result<Built, Error>)
    ensures r.Ok? <==> DnSection(sections).Some?
    ensures r.Ok? ==> r.value.sections == sections && r.value.name == name
    ensures r.Ok? ==> r.value.conf == CreateConfData(sections, outBuffer)
    ensures r.Ok? ==> SubjectMatchesDn(r.value)
  {
    var subject :- Subject.GetSubject(sections, "req");
    var b := Built(CreateConfData(sections, outBuffer), name, subject, sections);
    if Subject.RoundTrips(DnSection(sections).value) then
      Subject.GetSubjectRoundTrip(sections, "req");
      Ok(b)
    else Ok(b)
  }

  // ---------------------------------------------------------------------------
  // References between sections
  // ---------------------------------------------------------------------------

  /** Entry keys whose value is the name of another section. */
  predicate IsReferenceKey(k: string) {
    k == "distinguished_name" || k == "x509_extensions" || k == "req_extensions" || k == "default_ca" || k == "policy"
  }

  /** An entry that names a section names one that is there; `subjectAltName = @s` names section `s`. */
  predicate Resolves(sections: Sections, e: (string, Value)) {
    && (IsReferenceKey(e.0) ==> e.1.Str? && HasKey(sections, e.1.s))
    && (e.0 == "subjectAltName" && e.1.Str? && |e.1.s| > 0 && e.1.s[0] == '@' ==> HasKey(sections, e.1.s[1..]))
  }

  predicate EntriesResolve(sections: Sections, kv: Dict<Value>) {
    forall j :: 0 <= j < |kv| ==> Resolves(sections, kv[j])
  }

  /** Every cross-section reference in the config points at a section of the config. */
  predicate ReferencesResolve(sections: Sections) {
    forall i :: 0 <= i < |sections| ==> EntriesResolve(sections, sections[i].1)
  }

  /** Numbered entries never refer to anything, as long as the prefix starts unlike any referencing key. */
  lemma NumberedResolves(sections: Sections, prefix: string, vals: seq<Value>)
    requires prefix == "DNS" || prefix == "email"
    ensures EntriesResolve(sections, Numbered(prefix, vals))
  {
    NumberedIsListed(prefix, vals);
    var d := Listed(prefix, vals);
    forall j | 0 <= j < |d| ensures Resolves(sections, d[j]) {
      assert d[j].0[0] == prefix[0];
    }
  }

  /** A distinguished-name section refers to no other section. */
  lemma DnResolves(sections: Sections, dn: Dict<Value>)
    requires KeyList(dn) == ["C", "ST", "L", "O", "OU", "CN"]
    ensures EntriesResolve(sections, dn)
  {
    forall j | 0 <= j < |dn|
      ensures Resolves(sections, dn[j])
    {
      assert dn[j].0 == KeyList(dn)[j];
    }
  }

  /** The section called `name`, as an option. */
  function SectionOf(sections: Sections, name: string): Option<Dict<Value>> {
    Lookup(sections, name)
  }
}
