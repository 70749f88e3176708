/**
  The config a CA hands to `openssl ca` when it signs, revokes or issues a
  revocation list (lib/create-conf-data/for/ca-operations.js): a `[my_ca]`
  section naming the ledger files, the matching policy, and the three
  extension sections a signed certificate may get.
*/
module CaOpsConf {
  import opened Wrappers
  import opened JsObject
  import opened Errors
  import opened Text
  import opened ConfData
  import opened ConfArgs

  /** The arguments after the object form has been unpacked and the options destructured. */
  datatype OpsArgs = OpsArgs(
    ext: Json, serial: Value, database: Value, crlnumber: Value, newCertsDir: Value,
    defaultMd: Value, outBuffer: Value)

  /** What the builder returns (`{conf}`), together with the sections it rendered. */
  datatype OpsBuilt = OpsBuilt(conf: ConfOut, sections: Sections)

  /** The property name a computed member access `obj[ext]` uses. */
  function PropertyKey(ext: Json): string {
    if ext.Leaf? then ToStr(ext.v) else ObjectText
  }

  /**
    `{client: 'v3_client', ca: 'v3_ca', server: 'v3_server'}[ext]`: one of the
    three section names, or nothing. A key naming a member every object
    inherits would find a function instead, which the model does not follow.
  */
  function X509Section(ext: Json): (r: Result<Option<string>, Error>)
    ensures r.Ok? && r.value.Some? <==> PropertyKey(ext) in {"client", "ca", "server"}
    ensures r.Ok? && r.value.Some? ==> r.value.value == "v3_" + PropertyKey(ext)
    ensures r.Err? <==> ObjectPrototypeKey(PropertyKey(ext))
  {
    var k := PropertyKey(ext);
    if k == "client" then Ok(Some("v3_client"))
    else if k == "ca" then Ok(Some("v3_ca"))
    else if k == "server" then Ok(Some("v3_server"))
    else if ObjectPrototypeKey(k) then Err(Unmodelled("an extension name that is inherited by every object"))
    else Ok(None)
  }

  /**
    The argument handling of
    `create_conf_data_for_ca_operations(ext, serial, database, crlnumber, new_certs_dir, options)`:
    when `ext` is an object with an own `ext` field, every other argument is
    taken from it and it is spread over the options; otherwise the arguments
    are positional and a `null` options argument cannot be destructured.
  */
  function ReadOps(ext: Json, serial: Json, database: Json, crlnumber: Json, newCertsDir: Json, options: Json)
    : (r: Result<OpsArgs, Error>)
    ensures !SpreadForm(ext, "ext") && options == Leaf(Null) ==> r.Err? && r.error.TypeErr?
    ensures r.Ok? && SpreadForm(ext, "ext") ==>
      && r.value.ext == JsonGet(ext.fields, "ext")
      && Leaf(r.value.serial) == JsonGet(ext.fields, "serial")
      && Leaf(r.value.database) == JsonGet(ext.fields, "database")
      && Leaf(r.value.crlnumber) == JsonGet(ext.fields, "crlnumber")
      && Leaf(r.value.newCertsDir) == JsonGet(ext.fields, "new_certs_dir")
    ensures r.Ok? && !SpreadForm(ext, "ext") ==>
      && r.value.ext == ext
      && Leaf(r.value.serial) == serial && Leaf(r.value.database) == database
      && Leaf(r.value.crlnumber) == crlnumber && Leaf(r.value.newCertsDir) == newCertsDir
    ensures r.Ok? ==> !Nullish(r.value.defaultMd) || r.value.defaultMd == Null
  {
    var spread := SpreadForm(ext, "ext");
    if !spread && options == Leaf(Null) then Err(TypeErr("cannot destructure the options argument: it is null"))
    else
      var e := if spread then JsonGet(ext.fields, "ext") else ext;
      var s :- Field(if spread then JsonGet(ext.fields, "serial") else serial);
      var d :- Field(if spread then JsonGet(ext.fields, "database") else database);
      var c :- Field(if spread then JsonGet(ext.fields, "crlnumber") else crlnumber);
      var n :- Field(if spread then JsonGet(ext.fields, "new_certs_dir") else newCertsDir);
      var md :- Field(MergedRead(ext, "ext", options, "default_md"));
      Ok(OpsArgs(e, s, d, c, n, Default(md, Str("sha256")),
        Default(Flag(MergedRead(ext, "ext", options, "out_buffer")), Bool(true))))
  }

  function MyCa(a: OpsArgs, x509: Option<string>): Dict<Value> {
    [ ("serial", a.serial), ("database", a.database), ("crlnumber", a.crlnumber),
      ("new_certs_dir", a.newCertsDir), ("default_md", a.defaultMd), ("policy", Str("policy_match")) ]
    + (if x509.Some? then [("x509_extensions", Str(x509.value))] else [])
  }

  const PolicyMatch: Dict<Value> := [
    ("countryName", Str("supplied")), ("stateOrProvinceName", Str("optional")),
    ("localityName", Str("optional")), ("organizationName", Str("optional")),
    ("organizationalUnitName", Str("optional")), ("commonName", Str("supplied")),
    ("emailAddress", Str("optional")) ]

  const V3Ca: Dict<Value> := [
    ("basicConstraints", Arr(["critical", "CA:TRUE"])),
    ("keyUsage", Arr(["critical", "digitalSignature", "keyCertSign", "cRLSign"])),
    ("subjectKeyIdentifier", Str("hash")),
    ("authorityKeyIdentifier", Arr(["keyid", "issuer"])) ]

  const V3Client: Dict<Value> := [
    ("basicConstraints", Str("CA:FALSE")),
    ("nsCertType", Arr(["client", "email"])),
    ("keyUsage", Arr(["critical", "nonRepudiation", "digitalSignature", "keyEncipherment"])),
    ("extendedKeyUsage", Arr(["clientAuth", "emailProtection"])),
    ("subjectKeyIdentifier", Str("hash")),
    ("authorityKeyIdentifier", Arr(["keyid", "issuer"])) ]

  const V3Server: Dict<Value> := [
    ("basicConstraints", Str("CA:FALSE")),
    ("nsCertType", Str("server")),
    ("keyUsage", Arr(["critical", "digitalSignature", "keyEncipherment"])),
    ("extendedKeyUsage", Str("serverAuth")),
    ("subjectKeyIdentifier", Str("hash")),
    ("authorityKeyIdentifier", Arr(["keyid", "issuer"])) ]

  function OpsSections(a: OpsArgs, x509: Option<string>): Sections {
    [ ("ca", [("default_ca", Str("my_ca"))]),
      ("my_ca", MyCa(a, x509)),
      ("policy_match", PolicyMatch),
      ("v3_ca", V3Ca),
      ("v3_client", V3Client),
      ("v3_server", V3Server) ]
  }

  /** `create_conf_data_for_ca_operations(ext, serial, database, crlnumber, new_certs_dir, options)`. */
  function Build(ext: Json, serial: Json, database: Json, crlnumber: Json, newCertsDir: Json, options: Json)
    : (r: Result<OpsBuilt, Error>)
    ensures !SpreadForm(ext, "ext") && options == Leaf(Null) ==> r.Err? && r.error.TypeErr?
    ensures r.Ok? <==> (ReadOps(ext, serial, database, crlnumber, newCertsDir, options).Ok?
      && X509Section(ReadOps(ext, serial, database, crlnumber, newCertsDir, options).value.ext).Ok?)
    ensures r.Ok? ==> ReferencesResolve(r.value.sections)
    ensures r.Ok? ==> KeyList(r.value.sections) == ["ca", "my_ca", "policy_match", "v3_ca", "v3_client", "v3_server"]
    ensures r.Ok? ==> r.value.conf == CreateConfData(r.value.sections,
      ReadOps(ext, serial, database, crlnumber, newCertsDir, options).value.outBuffer)
    ensures r.Ok? ==> var a := ReadOps(ext, serial, database, crlnumber, newCertsDir, options).value;
      var my := Lookup(r.value.sections, "my_ca");
      && my.Some?
      && Get(my.value, "serial") == a.serial && Get(my.value, "database") == a.database
      && Get(my.value, "crlnumber") == a.crlnumber && Get(my.value, "new_certs_dir") == a.newCertsDir
      && Get(my.value, "default_md") == a.defaultMd
      && (HasKey(my.value, "x509_extensions") <==> PropertyKey(a.ext) in {"client", "ca", "server"})
      && (HasKey(my.value, "x509_extensions") ==> Get(my.value, "x509_extensions") == Str("v3_" + PropertyKey(a.ext)))
  {
    var a :- ReadOps(ext, serial, database, crlnumber, newCertsDir, options);
    var x509 :- X509Section(a.ext);
    OpsResolve(a, x509);
    MyCaFacts(a, x509);
    OpsSectionNames(a, x509);
    Ok(OpsBuilt(CreateConfData(OpsSections(a, x509), a.outBuffer), OpsSections(a, x509)))
  }

  /** The object form that lib/pki/ca.js uses: all fields in the first argument. */
  function BuildFromObject(fields: Dict<Json>): Result<OpsBuilt, Error> {
    Build(Obj(fields), Leaf(Undefined), Leaf(Undefined), Leaf(Undefined), Leaf(Undefined), Leaf(Undefined))
  }

  // ---------------------------------------------------------------------------
  // Properties
  // ---------------------------------------------------------------------------

  lemma OpsResolve(a: OpsArgs, x509: Option<string>)
    requires x509.Some? ==> x509.value in {"v3_client", "v3_ca", "v3_server"}
    ensures ReferencesResolve(OpsSections(a, x509))
  {
    var s := OpsSections(a, x509);
    assert s[1].0 == "my_ca" && s[2].0 == "policy_match";
    assert s[3].0 == "v3_ca" && s[4].0 == "v3_client" && s[5].0 == "v3_server";
    assert EntriesResolve(s, s[0].1) by {
      assert HasKey(s, "my_ca");
    }
    assert EntriesResolve(s, s[1].1) by {
      assert HasKey(s, "policy_match");
      if x509.Some? {
        assert HasKey(s, x509.value);
      }
    }
  }

  /** The sections come in a fixed order, whatever the arguments. */
  lemma OpsSectionNames(a: OpsArgs, x509: Option<string>)
    ensures KeyList(OpsSections(a, x509)) == ["ca", "my_ca", "policy_match", "v3_ca", "v3_client", "v3_server"]
  {
    var ks := KeyList(OpsSections(a, x509));
    assert |ks| == 6;
    assert ks[0] == "ca" && ks[1] == "my_ca" && ks[2] == "policy_match";
    assert ks[3] == "v3_ca" && ks[4] == "v3_client" && ks[5] == "v3_server";
  }

  /**
    The `[my_ca]` section: the ledger entries, the digest and the policy, and
    an `x509_extensions` entry exactly when an extension section was found.
  */
  lemma MyCaFacts(a: OpsArgs, x509: Option<string>)
    ensures var my := Lookup(OpsSections(a, x509), "my_ca");
      && my.Some?
      && Get(my.value, "serial") == a.serial
      && Get(my.value, "database") == a.database
      && Get(my.value, "crlnumber") == a.crlnumber
      && Get(my.value, "new_certs_dir") == a.newCertsDir
      && Get(my.value, "default_md") == a.defaultMd
      && Get(my.value, "policy") == Str("policy_match")
      && (HasKey(my.value, "x509_extensions") <==> x509.Some?)
      && (x509.Some? ==> Get(my.value, "x509_extensions") == Str(x509.value))
  {
    var s := OpsSections(a, x509);
    assert s[0].0 == "ca";
    LookupFirst(s, 1);
    var my := MyCa(a, x509);
    assert my[0].0 == "serial" && my[1].0 == "database" && my[2].0 == "crlnumber";
    assert my[3].0 == "new_certs_dir" && my[4].0 == "default_md" && my[5].0 == "policy";
    assert Get(my, "serial") == a.serial by { LookupFirst(my, 0); }
    assert Get(my, "database") == a.database by { LookupFirst(my, 1); }
    assert Get(my, "crlnumber") == a.crlnumber by { LookupFirst(my, 2); }
    assert Get(my, "new_certs_dir") == a.newCertsDir by { LookupFirst(my, 3); }
    assert Get(my, "default_md") == a.defaultMd by { LookupFirst(my, 4); }
    assert Get(my, "policy") == Str("policy_match") by { LookupFirst(my, 5); }
    MyCaX509(a, x509);
  }

  lemma MyCaX509(a: OpsArgs, x509: Option<string>)
    ensures HasKey(MyCa(a, x509), "x509_extensions") <==> x509.Some?
    ensures x509.Some? ==> Get(MyCa(a, x509), "x509_extensions") == Str(x509.value)
  {
    var my := MyCa(a, x509);
    assert my[0].0 == "serial" && my[1].0 == "database" && my[2].0 == "crlnumber";
    assert my[3].0 == "new_certs_dir" && my[4].0 == "default_md" && my[5].0 == "policy";
    if x509.Some? {
      LookupFirst(my, 6);
    } else {
      assert forall j :: 0 <= j < |my| ==> my[j].0 != "x509_extensions";
    }
  }

  /**
    An object without an own `ext` field is taken as the extension name
    itself: the ledger entries are then the (absent) positional arguments,
    and `[object Object]` names no extension section.
  */
  lemma ObjectWithoutExt(fields: Dict<Json>)
    requires !HasKey(fields, "ext")
    ensures BuildFromObject(fields).Ok?
    ensures var my := Lookup(BuildFromObject(fields).value.sections, "my_ca");
      && my.Some?
      && Get(my.value, "serial") == Undefined && Get(my.value, "database") == Undefined
      && Get(my.value, "crlnumber") == Undefined && Get(my.value, "new_certs_dir") == Undefined
      && !HasKey(my.value, "x509_extensions")
  {
    assert !SpreadForm(Obj(fields), "ext");
    assert PropertyKey(Obj(fields)) == ObjectText;
    assert !ObjectPrototypeKey(ObjectText);
  }

  /**
    The object form with an own `ext` field: the ledger entries are the
    object's own, and the extension section is the one `ext` names.
  */
  lemma ObjectWithExt(fields: Dict<Json>)
    requires HasKey(fields, "ext") && JsonGet(fields, "ext").Leaf? && JsonGet(fields, "ext").v.Str?
    requires !ObjectPrototypeKey(JsonGet(fields, "ext").v.s)
    requires JsonGet(fields, "serial").Leaf? && JsonGet(fields, "database").Leaf?
    requires JsonGet(fields, "crlnumber").Leaf? && JsonGet(fields, "new_certs_dir").Leaf?
    requires JsonGet(fields, "default_md").Leaf?
    ensures BuildFromObject(fields).Ok?
    ensures var my := Lookup(BuildFromObject(fields).value.sections, "my_ca");
      var e := JsonGet(fields, "ext").v.s;
      && my.Some?
      && Leaf(Get(my.value, "serial")) == JsonGet(fields, "serial")
      && Leaf(Get(my.value, "database")) == JsonGet(fields, "database")
      && Leaf(Get(my.value, "crlnumber")) == JsonGet(fields, "crlnumber")
      && Leaf(Get(my.value, "new_certs_dir")) == JsonGet(fields, "new_certs_dir")
      && (HasKey(my.value, "x509_extensions") <==> e in {"client", "ca", "server"})
      && (HasKey(my.value, "x509_extensions") ==> Get(my.value, "x509_extensions") == Str("v3_" + e))
  {
    assert SpreadForm(Obj(fields), "ext");
    assert MergedRead(Obj(fields), "ext", Leaf(Undefined), "default_md").Leaf?;
    var a := ReadOps(Obj(fields), Leaf(Undefined), Leaf(Undefined), Leaf(Undefined), Leaf(Undefined), Leaf(Undefined));
    assert a.Ok?;
    assert PropertyKey(a.value.ext) == JsonGet(fields, "ext").v.s;
  }
}
