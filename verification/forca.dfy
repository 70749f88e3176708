/**
  The builders of a CA's own config (lib/create-conf-data/for/ca.js), of a
  CA's signing request (for/ca-csr.js) and of a code-signing request
  (for/digital-signature.js). All three read their arguments the same way
  (`ConfArgs.ReadCaStyle`) and write the same `[req_distinguished_name]`.
*/
module CaConf {
  import opened Wrappers
  import opened JsObject
  import opened Errors
  import opened ConfData
  import opened ConfArgs

  /** `[v3_ca]`: the fixed CA extensions, then the optional CRL and OCSP locations and the alternative names. */
  function V3Ca(a: CaStyle): Dict<Value> {
    [ ("basicConstraints", Arr(["critical", "CA:TRUE"])),
      ("keyUsage", Arr(["critical", "keyCertSign", "cRLSign"])),
      ("subjectKeyIdentifier", Str("hash")),
      ("authorityKeyIdentifier", Arr(["keyid:always", "issuer"])) ]
    + (if Truthy(a.crlUrl) then [("crlDistributionPoints", Str("URI:" + ToStr(a.crlUrl)))] else [])
    + (if Truthy(a.ocspUrl) then [("authorityInfoAccess", Str("OCSP;URI:" + ToStr(a.ocspUrl)))] else [])
    + (if a.altNames.Arr? then [("subjectAltName", Str("@alt_names"))] else [])
  }

  /** `[alt_names]` with `DNS.1`, `DNS.2`, … when `alt_names` is an array. */
  function AltSection(a: CaStyle): Sections {
    if a.altNames.Arr? then [("alt_names", Numbered("DNS", Strs(a.altNames.items)))] else []
  }

  function CaSections(a: CaStyle): Sections {
    [ ("req", ReqSection("x509_extensions", "v3_ca")),
      ("req_distinguished_name", CaStyleDn(a)),
      ("v3_ca", V3Ca(a)) ]
    + AltSection(a)
  }

  /** `create_conf_data_for_ca(common_name, options)`. */
  function Build(arg0: Json, options: Json): (r: Result<Built, Error>)
    ensures r.Ok? <==> ReadCaStyle(arg0, options, true).Ok?
    ensures NullishJson(arg0) || options == Leaf(Null) ==> r.Err? && r.error.TypeErr?
    ensures r.Ok? ==> ReferencesResolve(r.value.sections)
    ensures r.Ok? ==> SubjectMatchesDn(r.value)
    ensures r.Ok? ==> Get(DnSection(r.value.sections).value, "CN") == r.value.name
  {
    var a :- ReadCaStyle(arg0, options, true);
    CaSectionsFacts(a);
    CaStyleDnCommonName(a);
    Finish(CaSections(a), a.commonName, a.outBuffer)
  }

  lemma CaSectionsFacts(a: CaStyle)
    ensures DnSection(CaSections(a)) == Some(CaStyleDn(a))
    ensures ReferencesResolve(CaSections(a))
  {
    CaDn(a);
    CaResolve(a);
  }

  lemma CaDn(a: CaStyle)
    ensures DnSection(CaSections(a)) == Some(CaStyleDn(a))
  {
    var s := CaSections(a);
    LookupFirst(s, 0);
    LookupFirst(s, 1);
  }

  lemma CaResolve(a: CaStyle)
    ensures ReferencesResolve(CaSections(a))
  {
    var s := CaSections(a);
    assert s[1].0 == "req_distinguished_name" && s[2].0 == "v3_ca";
    assert a.altNames.Arr? ==> s[3].0 == "alt_names";
    forall i | 0 <= i < |s|
      ensures EntriesResolve(s, s[i].1)
    {
      if i == 0 {
        assert HasKey(s, "req_distinguished_name") && HasKey(s, "v3_ca");
      } else if i == 1 {
        DnResolves(s, CaStyleDn(a));
      } else if i == 2 {
        assert a.altNames.Arr? ==> HasKey(s, "alt_names");
      } else {
        NumberedResolves(s, "DNS", Strs(a.altNames.items));
      }
    }
  }

  /** The alternative names are listed as `DNS.1`, `DNS.2`, … in order, and `[v3_ca]` points at them; without an array there is no such section. */
  lemma CaAltNames(a: CaStyle)
    ensures a.altNames.Arr? ==> Lookup(CaSections(a), "alt_names") == Some(Listed("DNS", Strs(a.altNames.items)))
    ensures a.altNames.Arr? ==> Lookup(V3Ca(a), "subjectAltName") == Some(Str("@alt_names"))
    ensures !a.altNames.Arr? ==> !HasKey(CaSections(a), "alt_names") && !HasKey(V3Ca(a), "subjectAltName")
  {
    if a.altNames.Arr? {
      NumberedIsListed("DNS", Strs(a.altNames.items));
      CaAltSection(a);
      CaAltReference(a);
    } else {
      CaNoAltSection(a);
      CaNoAltReference(a);
    }
  }

  lemma CaAltSection(a: CaStyle)
    requires a.altNames.Arr?
    ensures Lookup(CaSections(a), "alt_names") == Some(Numbered("DNS", Strs(a.altNames.items)))
  {
    var s := CaSections(a);
    assert s[0].0 == "req" && s[1].0 == "req_distinguished_name" && s[2].0 == "v3_ca" && s[3].0 == "alt_names";
    LookupFirst(s, 3);
  }

  lemma CaAltReference(a: CaStyle)
    requires a.altNames.Arr?
    ensures Lookup(V3Ca(a), "subjectAltName") == Some(Str("@alt_names"))
  {
    var v := V3Ca(a);
    assert v[|v| - 1] == ("subjectAltName", Str("@alt_names"));
    assert forall j :: 0 <= j < |v| - 1 ==> v[j].0 != "subjectAltName";
    LookupFirst(v, |v| - 1);
  }

  lemma CaNoAltSection(a: CaStyle)
    requires !a.altNames.Arr?
    ensures !HasKey(CaSections(a), "alt_names")
  {
    var s := CaSections(a);
    assert |s| == 3 && s[0].0 == "req" && s[1].0 == "req_distinguished_name" && s[2].0 == "v3_ca";
  }

  lemma CaNoAltReference(a: CaStyle)
    requires !a.altNames.Arr?
    ensures !HasKey(V3Ca(a), "subjectAltName")
  {
    var v := V3Ca(a);
    assert forall j :: 0 <= j < |v| ==> v[j].0 != "subjectAltName";
  }

  /** A truthy `crl_url` or `ocsp_url` becomes a distribution point or an OCSP access entry, and nothing otherwise. */
  lemma CaUrls(a: CaStyle)
    ensures Truthy(a.crlUrl) <==> HasKey(V3Ca(a), "crlDistributionPoints")
    ensures Truthy(a.crlUrl) ==> Lookup(V3Ca(a), "crlDistributionPoints") == Some(Str("URI:" + ToStr(a.crlUrl)))
    ensures Truthy(a.ocspUrl) <==> HasKey(V3Ca(a), "authorityInfoAccess")
    ensures Truthy(a.ocspUrl) ==> Lookup(V3Ca(a), "authorityInfoAccess") == Some(Str("OCSP;URI:" + ToStr(a.ocspUrl)))
  {
    var v := V3Ca(a);
    if Truthy(a.crlUrl) {
      LookupFirst(v, 4);
    }
    if Truthy(a.ocspUrl) {
      LookupFirst(v, if Truthy(a.crlUrl) then 5 else 4);
    }
  }

  /**
    Called with only a common name, the builder fills in the documented
    defaults and returns the config as a `Buffer`.
  */
  lemma CaDefaults(cn: string)
    ensures Build(Leaf(Str(cn)), Leaf(Undefined)).Ok?
    ensures var b := Build(Leaf(Str(cn)), Leaf(Undefined)).value;
      && b.name == Str(cn)
      && b.conf.BufferOut?
      && DnSection(b.sections) == Some([
           ("C", Str("US")), ("ST", Str("State")), ("L", Str("City")),
           ("O", Str("My Organization")), ("OU", Str("My Organization")), ("CN", Str(cn))])
      && !HasKey(b.sections, "alt_names")
  {
    CaDefaultsRead(cn);
    CaDefaultsBuilt(cn);
  }

  /** What `Finish` makes of the sections written for a lone common name. */
  lemma CaDefaultsBuilt(cn: string)
    ensures var r := Finish(CaSections(OnlyCommonName(cn)), Str(cn), Undefined);
      && r.Ok?
      && r.value.name == Str(cn)
      && r.value.conf.BufferOut?
      && DnSection(r.value.sections) == Some([
           ("C", Str("US")), ("ST", Str("State")), ("L", Str("City")),
           ("O", Str("My Organization")), ("OU", Str("My Organization")), ("CN", Str(cn))])
      && !HasKey(r.value.sections, "alt_names")
  {
    var a := OnlyCommonName(cn);
    CaDn(a);
    CaNoAltSection(a);
    DefaultDn(cn);
    FinishKeeps(CaSections(a), Str(cn), CaStyleDn(a));
  }

  /** The `??` defaults of the name section. */
  lemma DefaultDn(cn: string)
    ensures CaStyleDn(OnlyCommonName(cn)) == [
      ("C", Str("US")), ("ST", Str("State")), ("L", Str("City")),
      ("O", Str("My Organization")), ("OU", Str("My Organization")), ("CN", Str(cn))]
  {
  }

  /** `Finish` without `out_buffer` keeps the sections it is given, and answers a `Buffer`. */
  lemma FinishKeeps(s: Sections, name: Value, dn: Dict<Value>)
    requires DnSection(s) == Some(dn)
    ensures var r := Finish(s, name, Undefined);
      && r.Ok? && r.value.name == name && r.value.conf.BufferOut?
      && DnSection(r.value.sections) == Some(dn)
      && HasKey(r.value.sections, "alt_names") == HasKey(s, "alt_names")
  {
  }

  /** The arguments as read when only a common name is given. */
  function OnlyCommonName(cn: string): CaStyle {
    CaStyle(Str(cn), Undefined, Undefined, Undefined, Undefined, Undefined, Undefined, Undefined, Undefined, Undefined)
  }

  lemma CaDefaultsRead(cn: string)
    ensures Build(Leaf(Str(cn)), Leaf(Undefined)) == Finish(CaSections(OnlyCommonName(cn)), Str(cn), Undefined)
  {
    assert ReadCaStyle(Leaf(Str(cn)), Leaf(Undefined), true) == Ok(OnlyCommonName(cn));
  }
}

module CaCsrConf {
  import opened Wrappers
  import opened JsObject
  import opened Errors
  import opened ConfData
  import opened ConfArgs

  /** `[req_ext]`: the CA request extensions and the alternative names. */
  function ReqExt(a: CaStyle): Dict<Value> {
    [ ("basicConstraints", Arr(["CA:TRUE"])),
      ("keyUsage", Arr(["keyCertSign", "cRLSign"])) ]
    + (if a.altNames.Arr? then [("subjectAltName", Str("@alt_names"))] else [])
  }

  function AltSection(a: CaStyle): Sections {
    if a.altNames.Arr? then [("alt_names", Numbered("DNS", Strs(a.altNames.items)))] else []
  }

  function CsrSections(a: CaStyle): Sections {
    [ ("req", [("distinguished_name", Str("req_distinguished_name")), ("req_extensions", Str("req_ext")), ("prompt", Str("no"))]),
      ("req_distinguished_name", CaStyleDn(a)),
      ("req_ext", ReqExt(a)) ]
    + AltSection(a)
  }

  /**
    `create_conf_data_for_ca_csr(common_name, options)`. A truthy `crl_url` or
    `ocsp_url` is written into `sections.v3_ca`, a section this config does not
    have, so the property write throws.
  */
  function Build(arg0: Json, options: Json): (r: Result<Built, Error>)
    ensures NullishJson(arg0) || options == Leaf(Null) ==> r.Err? && r.error.TypeErr?
    ensures r.Ok? ==> ReferencesResolve(r.value.sections)
    ensures r.Ok? ==> SubjectMatchesDn(r.value)
    ensures r.Ok? ==> Get(DnSection(r.value.sections).value, "CN") == r.value.name
  {
    var a :- ReadCaStyle(arg0, options, true);
    if Truthy(a.crlUrl) then Err(TypeErr("cannot set properties of undefined (setting 'crlDistributionPoints')"))
    else if Truthy(a.ocspUrl) then Err(TypeErr("cannot set properties of undefined (setting 'authorityInfoAccess')"))
    else
      CsrSectionsFacts(a);
      CaStyleDnCommonName(a);
      Finish(CsrSections(a), a.commonName, a.outBuffer)
  }

  lemma CsrSectionsFacts(a: CaStyle)
    ensures DnSection(CsrSections(a)) == Some(CaStyleDn(a))
    ensures ReferencesResolve(CsrSections(a))
  {
    CsrDn(a);
    CsrResolve(a);
  }

  lemma CsrDn(a: CaStyle)
    ensures DnSection(CsrSections(a)) == Some(CaStyleDn(a))
  {
    var s := CsrSections(a);
    LookupFirst(s, 0);
    LookupFirst(s, 1);
  }

  lemma CsrResolve(a: CaStyle)
    ensures ReferencesResolve(CsrSections(a))
  {
    var s := CsrSections(a);
    assert EntriesResolve(s, s[0].1) by {
      assert HasKey(s, "req_distinguished_name") by { assert s[1].0 == "req_distinguished_name"; }
      assert HasKey(s, "req_ext") by { assert s[2].0 == "req_ext"; }
    }
    assert EntriesResolve(s, s[2].1) by {
      if a.altNames.Arr? {
        assert HasKey(s, "alt_names") by { assert s[3].0 == "alt_names"; }
      }
    }
    if a.altNames.Arr? {
      NumberedResolves(s, "DNS", Strs(a.altNames.items));
    }
  }

  /** The request config succeeds exactly when the arguments read and neither URL is given. */
  lemma CsrUrlsThrow(arg0: Json, options: Json)
    requires ReadCaStyle(arg0, options, true).Ok?
    ensures var a := ReadCaStyle(arg0, options, true).value;
      Build(arg0, options).Ok? <==> !Truthy(a.crlUrl) && !Truthy(a.ocspUrl)
    ensures Build(arg0, options).Err? ==> Build(arg0, options).error.TypeErr?
  {
    var a := ReadCaStyle(arg0, options, true).value;
    if !Truthy(a.crlUrl) && !Truthy(a.ocspUrl) {
      CsrSectionsFacts(a);
    }
  }

  /** The alternative names go into the request extensions, numbered `DNS.1`, `DNS.2`, … */
  lemma CsrAltNames(a: CaStyle)
    ensures a.altNames.Arr? ==> Lookup(CsrSections(a), "alt_names") == Some(Listed("DNS", Strs(a.altNames.items)))
    ensures a.altNames.Arr? ==> Lookup(ReqExt(a), "subjectAltName") == Some(Str("@alt_names"))
    ensures !a.altNames.Arr? ==> !HasKey(CsrSections(a), "alt_names")
  {
    if a.altNames.Arr? {
      NumberedIsListed("DNS", Strs(a.altNames.items));
      LookupFirst(CsrSections(a), 3);
      LookupFirst(ReqExt(a), 2);
    }
  }
}

module SigningConf {
  import opened Wrappers
  import opened JsObject
  import opened Errors
  import opened ConfData
  import opened ConfArgs

  function SigningSections(a: CaStyle): Sections {
    [ ("req", ReqSection("x509_extensions", "v3_code_signing")),
      ("req_distinguished_name", CaStyleDn(a)),
      ("v3_code_signing", [("keyUsage", Arr(["digitalSignature"])), ("extendedKeyUsage", Str("1.3.6.1.5.5.7.3.3"))]) ]
  }

  /** `create_conf_data_for_digital_signature(common_name, options)`: a code-signing request; `alt_names` is accepted and ignored. */
  function Build(arg0: Json, options: Json): (r: Result<Built, Error>)
    ensures r.Ok? <==> ReadCaStyle(arg0, options, false).Ok?
    ensures NullishJson(arg0) || options == Leaf(Null) ==> r.Err? && r.error.TypeErr?
    ensures r.Ok? ==> ReferencesResolve(r.value.sections)
    ensures r.Ok? ==> SubjectMatchesDn(r.value)
    ensures r.Ok? ==> Get(DnSection(r.value.sections).value, "CN") == r.value.name
  {
    var a :- ReadCaStyle(arg0, options, false);
    SigningSectionsFacts(a);
    CaStyleDnCommonName(a);
    Finish(SigningSections(a), a.commonName, a.outBuffer)
  }

  lemma SigningSectionsFacts(a: CaStyle)
    ensures DnSection(SigningSections(a)) == Some(CaStyleDn(a))
    ensures ReferencesResolve(SigningSections(a))
  {
    SigningDn(a);
    SigningResolve(a);
  }

  lemma SigningDn(a: CaStyle)
    ensures DnSection(SigningSections(a)) == Some(CaStyleDn(a))
  {
    var s := SigningSections(a);
    LookupFirst(s, 0);
    LookupFirst(s, 1);
  }

  /** `alt_names` is accepted but never written: no section of that name exists. */
  lemma SigningNoAltNames(arg0: Json, options: Json)
    requires Build(arg0, options).Ok?
    ensures !HasKey(Build(arg0, options).value.sections, "alt_names")
    ensures KeyList(Build(arg0, options).value.sections) == ["req", "req_distinguished_name", "v3_code_signing"]
  {
    var a := ReadCaStyle(arg0, options, false).value;
    assert Build(arg0, options).value.sections == SigningSections(a);
    SigningSectionNames(a);
  }

  lemma SigningSectionNames(a: CaStyle)
    ensures KeyList(SigningSections(a)) == ["req", "req_distinguished_name", "v3_code_signing"]
    ensures !HasKey(SigningSections(a), "alt_names")
  {
    var s := SigningSections(a);
    var ks := KeyList(s);
    assert ks[0] == "req" && ks[1] == "req_distinguished_name" && ks[2] == "v3_code_signing";
    forall i | 0 <= i < |s|
      ensures s[i].0 != "alt_names"
    {
      assert |s[i].0| != |"alt_names"|;
    }
  }

  lemma SigningResolve(a: CaStyle)
    ensures ReferencesResolve(SigningSections(a))
  {
    var s := SigningSections(a);
    assert HasKey(s, "req_distinguished_name") by { assert s[1].0 == "req_distinguished_name"; }
    assert HasKey(s, "v3_code_signing") by { assert s[2].0 == "v3_code_signing"; }
  }
}
