/**
  The builders of a server's signing request (lib/create-conf-data/for/server.js)
  and of a client's (for/client.js). Both accept either positional arguments
  or a first argument carrying `common_name` that is spread over the options,
  and both take their defaults from destructuring, which replaces `undefined`
  but keeps `null`.
*/
module ServerConf {
  import opened Wrappers
  import opened JsObject
  import opened Errors
  import opened ConfData
  import opened ConfArgs

  datatype ServerArgs = ServerArgs(
    commonName: Value, country: Value, state: Value, city: Value,
    organizationName: Value, organizationUnit: Value, altNames: Value, outBuffer: Value)

  function ReadServer(arg0: Json, options: Json): (r: Result<ServerArgs, Error>)
    ensures !SpreadForm(arg0, "common_name") && options == Leaf(Null) ==> r.Err? && r.error.TypeErr?
    ensures r.Ok? && !SpreadForm(arg0, "common_name") ==> arg0 == Leaf(r.value.commonName)
    ensures r.Ok? && SpreadForm(arg0, "common_name") ==> Leaf(r.value.commonName) == JsonGet(arg0.fields, "common_name")
  {
    if !SpreadForm(arg0, "common_name") && options == Leaf(Null) then Err(TypeErr("cannot destructure the options argument: it is null"))
    else
      var cn :- if SpreadForm(arg0, "common_name") then Field(JsonGet(arg0.fields, "common_name")) else Field(arg0);
      var country :- Field(MergedRead(arg0, "common_name", options, "country"));
      var state :- Field(MergedRead(arg0, "common_name", options, "state"));
      var city :- Field(MergedRead(arg0, "common_name", options, "city"));
      var org :- Field(MergedRead(arg0, "common_name", options, "organization_name"));
      var unit :- Field(MergedRead(arg0, "common_name", options, "organization_unit"));
      var alt :- Field(MergedRead(arg0, "common_name", options, "alt_names"));
      Ok(ServerArgs(cn,
        Default(country, Str("US")), Default(state, Str("WA")), Default(city, Str("Seattle")),
        Default(org, Str("Contoso Corporation")), Default(unit, Str("Sales Department")),
        Default(alt, Arr([])), Default(Flag(MergedRead(arg0, "common_name", options, "out_buffer")), Bool(true))))
  }

  function ServerDn(a: ServerArgs): Dict<Value> {
    [ ("C", a.country), ("ST", a.state), ("L", a.city),
      ("O", a.organizationName), ("OU", a.organizationUnit), ("CN", a.commonName) ]
  }

  function V3ServerAuth(a: ServerArgs): Dict<Value> {
    [ ("extendedKeyUsage", Str("1.3.6.1.5.5.7.3.1")),
      ("keyUsage", Arr(["digitalSignature", "keyEncipherment"])) ]
    + (if a.altNames.Arr? then [("subjectAltName", Str("@alt_names"))] else [])
  }

  function ServerSections(a: ServerArgs): Sections {
    [ ("req", ReqSection("x509_extensions", "v3_server_auth")),
      ("req_distinguished_name", ServerDn(a)),
      ("v3_server_auth", V3ServerAuth(a)) ]
    + (if a.altNames.Arr? then [("alt_names", Numbered("DNS", Strs(a.altNames.items)))] else [])
  }

  /** `create_conf_data_for_server(common_name, options)`. */
  function Build(arg0: Json, options: Json): (r: Result<Built, Error>)
    ensures r.Ok? <==> ReadServer(arg0, options).Ok?
    ensures !SpreadForm(arg0, "common_name") && options == Leaf(Null) ==> r.Err? && r.error.TypeErr?
    ensures r.Ok? ==> ReferencesResolve(r.value.sections)
    ensures r.Ok? ==> SubjectMatchesDn(r.value)
    ensures r.Ok? ==> Get(DnSection(r.value.sections).value, "CN") == r.value.name
  {
    var a :- ReadServer(arg0, options);
    ServerDnFacts(a);
    ServerResolve(a);
    Finish(ServerSections(a), a.commonName, a.outBuffer)
  }

  lemma ServerDnFacts(a: ServerArgs)
    ensures DnSection(ServerSections(a)) == Some(ServerDn(a))
    ensures Get(ServerDn(a), "CN") == a.commonName
  {
    var s := ServerSections(a);
    LookupFirst(s, 0);
    LookupFirst(s, 1);
    LookupFirst(ServerDn(a), 5);
  }

  lemma ServerResolve(a: ServerArgs)
    ensures ReferencesResolve(ServerSections(a))
  {
    var s := ServerSections(a);
    assert EntriesResolve(s, s[0].1) by {
      assert HasKey(s, "req_distinguished_name") by { assert s[1].0 == "req_distinguished_name"; }
      assert HasKey(s, "v3_server_auth") by { assert s[2].0 == "v3_server_auth"; }
    }
    assert EntriesResolve(s, s[2].1) by {
      if a.altNames.Arr? {
        assert HasKey(s, "alt_names") by { assert s[3].0 == "alt_names"; }
      }
    }
    if a.altNames.Arr? {
      NumberedResolves(s, "DNS", Strs(a.altNames.items));
    }
  }

  /** The alternative names are listed as `DNS.1`, `DNS.2`, … in order; an array, even an empty one, always yields the section. */
  lemma ServerAltNames(a: ServerArgs)
    ensures a.altNames.Arr? ==> Lookup(ServerSections(a), "alt_names") == Some(Listed("DNS", Strs(a.altNames.items)))
    ensures a.altNames.Arr? ==> Lookup(V3ServerAuth(a), "subjectAltName") == Some(Str("@alt_names"))
    ensures !a.altNames.Arr? ==> !HasKey(ServerSections(a), "alt_names")
  {
    var s := ServerSections(a);
    if a.altNames.Arr? {
      NumberedIsListed("DNS", Strs(a.altNames.items));
      assert s[3].0 == "alt_names";
      assert s[0].0 == "req" && s[1].0 == "req_distinguished_name" && s[2].0 == "v3_server_auth";
      LookupFirst(s, 3);
      LookupFirst(V3ServerAuth(a), 2);
    }
  }

  /** With only a common name the server defaults apply, and the (empty) `alt_names` default still produces the section. */
  lemma ServerDefaults(cn: string)
    ensures ReadServer(Leaf(Str(cn)), Leaf(Undefined)) == Ok(ServerArgs(Str(cn),
      Str("US"), Str("WA"), Str("Seattle"), Str("Contoso Corporation"), Str("Sales Department"), Arr([]), Bool(true)))
  {
  }

  /** Unlike the `??` defaults of the CA builders, a `null` field is kept as `null`. */
  lemma ServerKeepsNull(cn: string)
    ensures ReadServer(Leaf(Str(cn)), Obj([("country", Leaf(Null))])).Ok?
    ensures ReadServer(Leaf(Str(cn)), Obj([("country", Leaf(Null))])).value.country == Null
  {
    assert JsonGet([("country", Leaf(Null))], "country") == Leaf(Null);
  }

  /** In the spread form, a field the first argument has wins over the options' one. */
  lemma ServerSpreadWins(arg0: Json, options: Json)
    requires SpreadForm(arg0, "common_name") && HasKey(arg0.fields, "country")
    requires ReadServer(arg0, options).Ok?
    ensures Leaf(ReadServer(arg0, options).value.country) == (
      var c := JsonGet(arg0.fields, "country");
      if c == Leaf(Undefined) then Leaf(Str("US")) else c)
  {
  }
}

module ClientConf {
  import opened Wrappers
  import opened JsObject
  import opened Errors
  import opened ConfData
  import opened ConfArgs

  datatype ClientArgs = ClientArgs(
    commonName: string, emails: seq<Value>,
    country: Value, state: Value, city: Value, organizationName: Value, outBuffer: Value)

  /** `!email || email?.length === 0`. */
  predicate NoEmail(email: Json) {
    !JsonTruthy(email) || email == Leaf(Arr([]))
  }

  /**
    The argument handling of `create_conf_data_for_client(common_name, email, options)`:
    destructure the options, then insist on a non-empty string common name
    and at least one e-mail address; a single address is wrapped in a list.
  */
  function ReadClient(arg0: Json, email: Json, options: Json): (r: Result<ClientArgs, Error>)
    ensures !SpreadForm(arg0, "common_name") && options == Leaf(Null) ==> r.Err? && r.error.TypeErr?
    ensures r.Ok? ==> |r.value.commonName| > 0 && |r.value.emails| > 0
    ensures r.Ok? ==> Leaf(Str(r.value.commonName)) == (if SpreadForm(arg0, "common_name") then JsonGet(arg0.fields, "common_name") else arg0)
  {
    var spread := SpreadForm(arg0, "common_name");
    if !spread && options == Leaf(Null) then Err(TypeErr("cannot destructure the options argument: it is null"))
    else
      var cn := if spread then JsonGet(arg0.fields, "common_name") else arg0;
      var em := if spread then JsonGet(arg0.fields, "email") else email;
      var country :- Field(MergedRead(arg0, "common_name", options, "country"));
      var state :- Field(MergedRead(arg0, "common_name", options, "state"));
      var city :- Field(MergedRead(arg0, "common_name", options, "city"));
      var org :- Field(MergedRead(arg0, "common_name", options, "organization_name"));
      var outBuffer := Default(Flag(MergedRead(arg0, "common_name", options, "out_buffer")), Bool(true));
      if !(cn.Leaf? && cn.v.Str? && cn.v.s != "") then Err(Thrown("expecting common_name to be non-empty string"))
      else if NoEmail(em) then Err(Thrown("must provide at least 1 email address"))
      else if em.Obj? then Err(Unmodelled("an object given as the e-mail address"))
      else
        var emails := if em.v.Arr? then Strs(em.v.items) else [em.v];
        Ok(ClientArgs(cn.v.s, emails,
          Default(country, Str("US")), Default(state, Str("WA")), Default(city, Str("Seattle")),
          Default(org, Str("Contoso Corporation")), outBuffer))
  }

  function ClientDn(a: ClientArgs): Dict<Value>
    requires |a.emails| > 0
  {
    [ ("countryName", a.country), ("stateOrProvinceName", a.state), ("localityName", a.city),
      ("organizationName", a.organizationName), ("commonName", Str(a.commonName)),
      ("emailAddress", a.emails[0]) ]
  }

  const V3Client: Dict<Value> := [
    ("basicConstraints", Str("CA:FALSE")),
    ("nsCertType", Arr(["client", "email"])),
    ("subjectKeyIdentifier", Str("hash")),
    ("authorityKeyIdentifier", Arr(["keyid", "issuer"])),
    ("keyUsage", Arr(["critical", "nonRepudiation", "digitalSignature", "keyEncipherment"])),
    ("extendedKeyUsage", Arr(["clientAuth", "emailProtection"])),
    ("subjectAltName", Str("@alt_names")) ]

  function ClientSections(a: ClientArgs): Sections
    requires |a.emails| > 0
  {
    [ ("req", ReqSection("x509_extensions", "v3_client")),
      ("req_distinguished_name", ClientDn(a)),
      ("v3_client", V3Client),
      ("alt_names", Numbered("email", a.emails)) ]
  }

  /** `create_conf_data_for_client(common_name, email, options)`. */
  function Build(arg0: Json, email: Json, options: Json): (r: Result<Built, Error>)
    ensures r.Ok? <==> ReadClient(arg0, email, options).Ok?
    ensures r.Ok? ==> ReferencesResolve(r.value.sections)
    ensures r.Ok? ==> SubjectMatchesDn(r.value)
    ensures r.Ok? ==> r.value.name.Str? && Get(DnSection(r.value.sections).value, "commonName") == r.value.name
  {
    var a :- ReadClient(arg0, email, options);
    ClientDnFacts(a);
    ClientResolve(a);
    Finish(ClientSections(a), Str(a.commonName), a.outBuffer)
  }

  lemma ClientDnFacts(a: ClientArgs)
    requires |a.emails| > 0
    ensures DnSection(ClientSections(a)) == Some(ClientDn(a))
    ensures Get(ClientDn(a), "commonName") == Str(a.commonName)
  {
    var s := ClientSections(a);
    LookupFirst(s, 0);
    LookupFirst(s, 1);
    LookupFirst(ClientDn(a), 4);
  }

  lemma ClientResolve(a: ClientArgs)
    requires |a.emails| > 0
    ensures ReferencesResolve(ClientSections(a))
  {
    var s := ClientSections(a);
    assert EntriesResolve(s, s[0].1) by {
      assert HasKey(s, "req_distinguished_name") by { assert s[1].0 == "req_distinguished_name"; }
      assert HasKey(s, "v3_client") by { assert s[2].0 == "v3_client"; }
    }
    assert EntriesResolve(s, s[2].1) by {
      assert HasKey(s, "alt_names") by { assert s[3].0 == "alt_names"; }
    }
    NumberedResolves(s, "email", a.emails);
  }

  /** Every address is listed as `email.1`, `email.2`, … in order, and the first is also the subject's `emailAddress`. */
  lemma ClientEmails(a: ClientArgs)
    requires |a.emails| > 0
    ensures Lookup(ClientSections(a), "alt_names") == Some(Listed("email", a.emails))
    ensures Get(ClientDn(a), "emailAddress") == Listed("email", a.emails)[0].1
  {
    ClientAltNames(a);
    NumberedIsListed("email", a.emails);
    ClientEmailAddress(a);
  }

  lemma ClientAltNames(a: ClientArgs)
    requires |a.emails| > 0
    ensures Lookup(ClientSections(a), "alt_names") == Some(Numbered("email", a.emails))
  {
    var s := ClientSections(a);
    assert s[0].0 == "req" && s[1].0 == "req_distinguished_name" && s[2].0 == "v3_client";
    LookupFirst(s, 3);
  }

  lemma ClientEmailAddress(a: ClientArgs)
    requires |a.emails| > 0
    ensures Get(ClientDn(a), "emailAddress") == a.emails[0]
  {
    var d := ClientDn(a);
    assert d[0].0 != d[5].0 && d[1].0 != d[5].0 && d[2].0 != d[5].0 && d[3].0 != d[5].0 && d[4].0 != d[5].0;
    LookupFirst(d, 5);
  }

  /** A missing, empty or non-string common name is refused, as is a missing or empty e-mail list. */
  lemma ClientRefuses(cn: Json, email: Json)
    requires !SpreadForm(cn, "common_name")
    requires !(cn.Leaf? && cn.v.Str? && cn.v.s != "") || NoEmail(email)
    ensures Build(cn, email, Leaf(Undefined)).Err?
    ensures Build(cn, email, Leaf(Undefined)).error.Thrown?
  {
  }
}
