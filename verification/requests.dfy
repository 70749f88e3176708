/**
  What a member does to itself: generate a key pair, ask for a certificate
  (a certificate signing request) and, for a CA, issue itself a certificate.
  Snake family: lib/pki/child.js (`create_keypair`, `create_csr`), server.js,
  client.js and ca.js (`create_csr`, `create_cert`). Camel family:
  pki-member.js (`create_rsa_keypair`), pki-server.js, pki-client.js and
  pki-ca.js (`create_csr`, `create_cert`).

  A member-level call is a `Step`: its result, the member as the call left it
  (also when it threw half-way), and the reasons of the `'updated'` events it
  emitted on itself. `Run` places a step in a tree.
*/
module Requests {
  import opened Wrappers
  import opened JsObject
  import opened Errors
  import opened Text
  import opened ConfArgs
  import opened Backend
  import opened Members
  import opened Events
  import CaConf
  import CaCsrConf
  import ServerConf
  import ClientConf

  datatype Step<T> = Step(result: Result<T, Error>, member: Member, whys: seq<string>)

  // ---------------------------------------------------------------------------
  // Events of a step in the tree
  // ---------------------------------------------------------------------------

  /** The events of the updates emitted, in order, on the member at `a`. */
  function Announce(f: Family, a: Addr, whys: seq<string>): seq<Event>
    decreases |whys|
  {
    if |whys| == 0 then [] else Emitted(f, a, whys[0]) + Announce(f, a, whys[1..])
  }

  lemma {:induction false} AnnounceAppend(f: Family, a: Addr, x: seq<string>, y: seq<string>)
    ensures Announce(f, a, x + y) == Announce(f, a, x) + Announce(f, a, y)
    decreases |x|
  {
    if |x| == 0 {
      assert x + y == y;
    } else {
      assert (x + y)[1..] == x[1..] + y;
      AnnounceAppend(f, a, x[1..], y);
    }
  }

  /** A step taken by the member at `a`: the tree gets the member's new state and the events it emitted. */
  function Run<T>(f: Family, root: Member, a: Addr, s: Step<T>): (o: Outcome<T>)
    requires At(root, a).Some?
    ensures At(o.root, a) == Some(s.member)
  {
    Outcome(s.result, Put(root, a, s.member), Announce(f, a, s.whys))
  }

  // ---------------------------------------------------------------------------
  // Arguments
  // ---------------------------------------------------------------------------

  /** `arguments[i]`: `undefined` past the end. */
  function Arg(args: seq<Json>, i: nat): Json {
    if i < |args| then args[i] else Leaf(Undefined)
  }

  /** A default in a destructuring pattern or parameter list: it replaces `undefined` only. */
  function OrDefault(j: Json, d: Json): Json {
    if j == Leaf(Undefined) then d else j
  }

  /** `j ?? d`: it replaces `null` as well. */
  function OrIfNullish(j: Json, d: Json): Json {
    if NullishJson(j) then d else j
  }

  /**
    The own enumerable entries `Object.assign` copies from a source: an
    object's fields, a string's characters and an array's items under their
    indices, nothing from any other primitive. A source with an own
    `__proto__` field would replace the target's prototype, which the model
    does not follow.
  */
  function OwnEntries(src: Json): Result<Dict<Json>, Error> {
    match src
    case Obj(fs) =>
      if HasKey(fs, "__proto__") then Err(Unmodelled("an own __proto__ field copied by Object.assign")) else Ok(fs)
    case Leaf(Str(s)) => Ok(seq(|s|, i requires 0 <= i < |s| => (NatToDecimal(i), Leaf(Str([s[i]])))))
    case Leaf(Arr(items)) => Ok(seq(|items|, i requires 0 <= i < |items| => (NatToDecimal(i), Leaf(Str(items[i])))))
    case Leaf(_) => Ok([])
  }

  /** `Object.assign(target, src)` on a plain object. */
  function Assign(target: Dict<Json>, src: Json): Result<Dict<Json>, Error> {
    var es :- OwnEntries(src);
    Ok(Merge(target, es))
  }

  /** Object.assign: a field the source has comes from the source, any other from the target. */
  lemma AssignLookup(target: Dict<Json>, fs: Dict<Json>, k: string)
    requires WellFormed(target) && WellFormed(fs) && !HasKey(fs, "__proto__")
    ensures Assign(target, Obj(fs)).Ok?
    ensures Lookup(Assign(target, Obj(fs)).value, k) == if HasKey(fs, k) then Lookup(fs, k) else Lookup(target, k)
  {
    MergeLookup(target, fs, k);
  }

  /** A primitive source that is not a string or an array adds nothing. */
  lemma AssignPrimitive(target: Dict<Json>, v: Value)
    requires !v.Str? && !v.Arr?
    ensures Assign(target, Leaf(v)) == Ok(target)
  {
  }

  // ---------------------------------------------------------------------------
  // Key pairs
  // ---------------------------------------------------------------------------

  datatype Algorithm = Rsa | Ecdsa

  /**
    `switch (algorithm.toLowerCase())`: anything but a string has no
    `toLowerCase`; a name other than "rsa" or "ecdsa", in any case, is out of
    range. Every character outside A-Z that lowercases to an ASCII letter
    lowercases to "k", which neither name holds, so ASCII lowercasing decides
    the same cases.
  */
  function AlgorithmOf(algorithm: Json): (r: Result<Algorithm, Error>)
    ensures !(algorithm.Leaf? && algorithm.v.Str?) ==> r.Err? && r.error.TypeErr?
    ensures algorithm.Leaf? && algorithm.v.Str? ==>
      && (r == Ok(Rsa) <==> AsciiLower(algorithm.v.s) == "rsa")
      && (r == Ok(Ecdsa) <==> AsciiLower(algorithm.v.s) == "ecdsa")
      && (r.Err? ==> r.error.RangeErr?)
  {
    if !(algorithm.Leaf? && algorithm.v.Str?) then Err(TypeErr("algorithm.toLowerCase is not a function"))
    else
      var name := AsciiLower(algorithm.v.s);
      if name == "rsa" then Ok(Rsa)
      else if name == "ecdsa" then Ok(Ecdsa)
      else Err(RangeErr("expecting algorithm to be \"rsa\" or \"ecdsa\""))
  }

  /** The spellings that select RSA: "rsa" in any mix of cases, and nothing else. */
  lemma RsaSpellings(s: string)
    ensures AsciiLower(s) == "rsa" <==>
      |s| == 3 && s[0] in {'r', 'R'} && s[1] in {'s', 'S'} && s[2] in {'a', 'A'}
  {
    var l := AsciiLower(s);
    if |s| == 3 {
      LowerOfLetter(s[0], 'r');
      LowerOfLetter(s[1], 's');
      LowerOfLetter(s[2], 'a');
      assert l == "rsa" <==> l[0] == 'r' && l[1] == 's' && l[2] == 'a';
    } else {
      assert |l| != |"rsa"|;
    }
  }

  /** The characters that lower-case to a given lower-case ASCII letter. */
  lemma LowerOfLetter(c: char, l: char)
    requires 'a' <= l <= 'z'
    ensures AsciiLowerChar(c) == l <==> c == l || c as int == l as int - 32
  {
  }

  /** A generated key pair becomes the member's keys; the key fields are written without the revocation guard. */
  function Generated(m: Member, reply: Result<KeyPair, string>, why: string): (s: Step<KeyPair>)
    ensures reply.Err? ==> s == Step(Err(BackendErr(reply.error)), m, [])
    ensures reply.Ok? ==>
      s == Step(Ok(reply.value), m.(privateKey := Some(reply.value.privateKey), publicKey := Some(reply.value.publicKey)), [why])
  {
    match reply
    case Err(e) => Step(Err(BackendErr(e)), m, [])
    case Ok(k) => Step(Ok(k), m.(privateKey := Some(k.privateKey), publicKey := Some(k.publicKey)), [why])
  }

  /**
    Snake `create_keypair(algorithm, options = {})`: `create_rsa_keypair`
    with `{bits = 4096, password}` or `create_ecdsa_keypair` with
    `{mode = 'p256', password}` read from the options.
  */
  function SnakeCreateKeypair(m: Member, algorithm: Json, options: Json, ossl: Openssl): (s: Step<KeyPair>)
    ensures AlgorithmOf(algorithm).Err? ==> s == Step(Err(AlgorithmOf(algorithm).error), m, [])
    ensures AlgorithmOf(algorithm).Ok? && options == Leaf(Null) ==> s.result.Err? && s.result.error.TypeErr? && s.member == m
    ensures s.result.Err? ==> s.member == m && s.whys == []
    ensures s.result.Ok? ==>
      && s.member == m.(privateKey := Some(s.result.value.privateKey), publicKey := Some(s.result.value.publicKey))
      && s.whys == [if AlgorithmOf(algorithm) == Ok(Rsa) then "create-rsa-keypair" else "create-ecdsa-keypair"]
    ensures AlgorithmOf(algorithm) == Ok(Rsa) && options != Leaf(Null) ==>
      var o := OrDefault(options, Obj([]));
      s.result == (match ossl.rsaKeypair(OrDefault(Read(o, "bits"), Leaf(Num(4096))), Read(o, "password"))
                   case Ok(k) => Ok(k) case Err(e) => Err(BackendErr(e)))
    ensures AlgorithmOf(algorithm) == Ok(Ecdsa) && options != Leaf(Null) ==>
      var o := OrDefault(options, Obj([]));
      s.result == (match ossl.ecdsaKeypair(OrDefault(Read(o, "mode"), Leaf(Str("p256"))), Read(o, "password"))
                   case Ok(k) => Ok(k) case Err(e) => Err(BackendErr(e)))
  {
    var o := OrDefault(options, Obj([]));
    match AlgorithmOf(algorithm)
    case Err(e) => Step(Err(e), m, [])
    case Ok(alg) =>
      if o == Leaf(Null) then Step(Err(TypeErr("cannot destructure the options: they are null")), m, [])
      else if alg == Rsa then
        Generated(m, ossl.rsaKeypair(OrDefault(Read(o, "bits"), Leaf(Num(4096))), Read(o, "password")), "create-rsa-keypair")
      else
        Generated(m, ossl.ecdsaKeypair(OrDefault(Read(o, "mode"), Leaf(Str("p256"))), Read(o, "password")), "create-ecdsa-keypair")
  }

  /** Camel `create_rsa_keypair()`: always 4096 bits and no password. */
  function CamelCreateRsaKeypair(m: Member, ossl: Openssl): (s: Step<KeyPair>)
    ensures s.result.Ok? <==> ossl.rsaKeypair(Leaf(Num(4096)), Leaf(Undefined)).Ok?
    ensures s.result.Ok? ==> s.result.value == ossl.rsaKeypair(Leaf(Num(4096)), Leaf(Undefined)).value
    ensures s.result.Ok? ==> s.whys == ["create-rsa-keypair"] && s.member.privateKey == Some(s.result.value.privateKey)
    ensures s.result.Err? ==> s.member == m && s.whys == []
  {
    Generated(m, ossl.rsaKeypair(Leaf(Num(4096)), Leaf(Undefined)), "create-rsa-keypair")
  }

  /** A key pair replaces the keys even of a revoked member, whose getters still refuse to hand them out. */
  lemma RevokedMemberRekeyed(m: Member, algorithm: Json, options: Json, ossl: Openssl)
    requires IsRevoked(m)
    requires SnakeCreateKeypair(m, algorithm, options, ossl).result.Ok?
    ensures var s := SnakeCreateKeypair(m, algorithm, options, ossl);
      s.member.privateKey == Some(s.result.value.privateKey) && GetPrivateKey(s.member) == Err(Revoked)
  {
  }

  // ---------------------------------------------------------------------------
  // key_args
  // ---------------------------------------------------------------------------

  /** `{key_algorithm = 'rsa', key_options = {bits: 4096}, key_password} = key_args ?? {}`. */
  datatype KeySpec = KeySpec(algorithm: Json, keyOptions: Json, password: Json)

  function KeySpecOf(keyArgs: Json): (k: KeySpec)
    ensures NullishJson(keyArgs) ==> k == KeySpec(Leaf(Str("rsa")), Obj([("bits", Leaf(Num(4096)))]), Leaf(Undefined))
  {
    var ka := OrIfNullish(keyArgs, Obj([]));
    KeySpec(OrDefault(Read(ka, "key_algorithm"), Leaf(Str("rsa"))),
            OrDefault(Read(ka, "key_options"), Obj([("bits", Leaf(Num(4096)))])),
            Read(ka, "key_password"))
  }

  /** `Object.assign({}, key_options, {password: key_password})`: the options with the password put last. */
  function KeyOptions(k: KeySpec): (r: Result<Json, Error>)
    ensures r.Ok? ==> r.value.Obj? && JsonGet(r.value.fields, "password") == k.password
  {
    var es :- OwnEntries(k.keyOptions);
    MergeWellFormed([], es);
    SetLookup(Merge([], es), "password", k.password, "password");
    Ok(Obj(Set(Merge([], es), "password", k.password)))
  }

  /**
    The key a request is signed with: the member's own, read through the
    guarded getter, or (when it has none) a fresh one. The snake family
    generates it as `key_args` asks; the camel family always makes a
    4096-bit RSA key.
  */
  function KeyStep(f: Family, m: Member, k: KeySpec, ossl: Openssl): (s: Step<Bytes>)
    ensures IsRevoked(m) ==> s == Step(Err(Revoked), m, [])
    ensures !IsRevoked(m) && m.privateKey.Some? ==> s == Step(Ok(m.privateKey.value), m, [])
    ensures s.result.Ok? ==> s.member.privateKey == Some(s.result.value) && !IsRevoked(s.member)
    ensures s.member.(privateKey := m.privateKey, publicKey := m.publicKey) == m
    ensures s.result.Ok? ==> s.whys == [] || s.whys == ["create-rsa-keypair"] || s.whys == ["create-ecdsa-keypair"]
    ensures s.result.Err? ==> s.whys == []
  {
    match GetPrivateKey(m)
    case Err(e) => Step(Err(e), m, [])
    case Ok(Some(key)) => Step(Ok(key), m, [])
    case Ok(None) =>
      if f == Camel then
        var g := CamelCreateRsaKeypair(m, ossl);
        Step(if g.result.Ok? then Ok(g.result.value.privateKey) else Err(g.result.error), g.member, g.whys)
      else
        match KeyOptions(k)
        case Err(e) => Step(Err(e), m, [])
        case Ok(opts) =>
          var g := SnakeCreateKeypair(m, k.algorithm, opts, ossl);
          Step(if g.result.Ok? then Ok(g.result.value.privateKey) else Err(g.result.error), g.member, g.whys)
  }

  // ---------------------------------------------------------------------------
  // create_csr
  // ---------------------------------------------------------------------------

  /**
    The part both families share once the config is built: the key, then
    `cert = null` (the getter has just shown the member is not revoked), the
    request, and the name and subject the config reports.
  */
  function CsrTail(f: Family, m: Member, k: KeySpec, built: Built, ossl: Openssl): (s: Step<Bytes>)
    ensures IsRevoked(m) ==> s == Step(Err(Revoked), m, [])
    ensures s.result.Ok? ==>
      && KeyStep(f, m, k, ossl).result.Ok?
      && ossl.createCsr(KeyStep(f, m, k, ossl).result.value, built.conf) == Ok(s.result.value)
      && s.member == KeyStep(f, m, k, ossl).member.(
           cert := None, csr := Some(s.result.value), name := Leaf(built.name), subject := Leaf(Str(built.subject)))
      && s.whys == KeyStep(f, m, k, ossl).whys + ["create-csr"]
  {
    var ks := KeyStep(f, m, k, ossl);
    match ks.result
    case Err(e) => ks
    case Ok(key) =>
      var m1 := ks.member.(cert := None);
      match ossl.createCsr(key, built.conf)
      case Err(e) => Step(Err(BackendErr(e)), m1, ks.whys)
      case Ok(csr) =>
        Step(Ok(csr), m1.(csr := Some(csr), name := Leaf(built.name), subject := Leaf(Str(built.subject))),
             ks.whys + ["create-csr"])
  }

  /** What the snake `create_csr` of a member kind hands to its config builder, and its key arguments. */
  datatype CsrInput = CsrInput(arg: Json, keys: KeySpec)

  /**
    Snake `create_csr(common_name, {key_args = {}, conf_args = {}})` (a
    client takes `email` before the options): the options cannot be
    `null` or missing; a client's email goes in under the `conf_args`; the
    builder gets `Object.assign({}, {common_name}, conf_args)`.
  */
  function SnakeCsrInput(kind: Kind, args: seq<Json>): (r: Result<CsrInput, Error>)
    ensures NullishJson(Arg(args, if kind == ClientKind then 2 else 1)) ==> r.Err? && r.error.TypeErr?
  {
    var opts := Arg(args, if kind == ClientKind then 2 else 1);
    if NullishJson(opts) then Err(TypeErr("cannot destructure the options: they are null or undefined"))
    else
      var keyArgs := OrDefault(Read(opts, "key_args"), Obj([]));
      var confArgs := OrDefault(Read(opts, "conf_args"), Obj([]));
      var conf :- if kind == ClientKind then Assign([("email", Arg(args, 1))], confArgs) else OwnEntries(confArgs);
      var arg :- Assign([("common_name", Arg(args, 0))], Obj(conf));
      Ok(CsrInput(Obj(arg), KeySpecOf(keyArgs)))
  }

  /** The snake builders, each called with the one merged argument. */
  function SnakeCsrConf(kind: Kind, arg: Json): Result<Built, Error> {
    match kind
    case ServerKind => ServerConf.Build(arg, Leaf(Undefined))
    case ClientKind => ClientConf.Build(arg, Leaf(Undefined), Leaf(Undefined))
    case CaKind => CaConf.Build(arg, Leaf(Undefined))
  }

  /** The camel builders, given the arguments as they came: `for_server`, `for_client` and `for_ca_csr`. */
  function CamelCsrConf(kind: Kind, args: seq<Json>): Result<Built, Error> {
    match kind
    case ServerKind => ServerConf.Build(Arg(args, 0), Arg(args, 1))
    case ClientKind => ClientConf.Build(Arg(args, 0), Arg(args, 1), Arg(args, 2))
    case CaKind => CaCsrConf.Build(Arg(args, 0), Arg(args, 1))
  }

  /** The config a request is made with, and the key arguments a missing key is generated from. */
  datatype CsrPlan = CsrPlan(built: Built, keys: KeySpec)

  /**
    How `create_csr` reads its arguments. The camel family passes them to its
    builder unchanged and has no key arguments.
  */
  function PlanCsr(f: Family, kind: Kind, args: seq<Json>): Result<CsrPlan, Error> {
    if f == Snake then
      var input :- SnakeCsrInput(kind, args);
      var built :- SnakeCsrConf(kind, input.arg);
      Ok(CsrPlan(built, input.keys))
    else
      var built :- CamelCsrConf(kind, args);
      Ok(CsrPlan(built, KeySpecOf(Leaf(Undefined))))
  }

  /**
    `create_csr` of either family: the config is built before anything else
    happens, so a bad argument leaves the member as it was; then the shared
    part.
  */
  function CreateCsr(f: Family, m: Member, args: seq<Json>, ossl: Openssl): (s: Step<Bytes>)
    ensures PlanCsr(f, m.kind, args).Err? ==> s == Step(Err(PlanCsr(f, m.kind, args).error), m, [])
    ensures PlanCsr(f, m.kind, args).Ok? && IsRevoked(m) ==> s == Step(Err(Revoked), m, [])
    ensures s.result.Ok? ==>
      var p := PlanCsr(f, m.kind, args).value;
      var ks := KeyStep(f, m, p.keys, ossl);
      && PlanCsr(f, m.kind, args).Ok? && ks.result.Ok?
      && ossl.createCsr(ks.result.value, p.built.conf) == Ok(s.result.value)
      && s.member == ks.member.(cert := None, csr := Some(s.result.value), name := Leaf(p.built.name),
                                subject := Leaf(Str(p.built.subject)))
      && s.whys == ks.whys + ["create-csr"]
  {
    match PlanCsr(f, m.kind, args)
    case Err(e) => Step(Err(e), m, [])
    case Ok(p) => CsrTail(f, m, p.keys, p.built, ossl)
  }

  // ---------------------------------------------------------------------------
  // create_cert (a CA)
  // ---------------------------------------------------------------------------

  /** The end of `create_cert`: `csr = null`, the self-signed certificate, then the name and subject. */
  function CertTail(m: Member, key: Bytes, built: Built, days: Json, whys: seq<string>, ossl: Openssl): (s: Step<Bytes>)
    ensures s.member.csr == None
    ensures s.result.Ok? <==> ossl.createCert(key, built.conf, days).Ok?
    ensures s.result.Ok? ==>
      && s.result.value == ossl.createCert(key, built.conf, days).value
      && s.member == m.(csr := None, cert := Some(s.result.value), name := Leaf(built.name), subject := Leaf(Str(built.subject)))
      && s.whys == whys + ["create-cert"]
  {
    var m1 := m.(csr := None);
    match ossl.createCert(key, built.conf, days)
    case Err(e) => Step(Err(BackendErr(e)), m1, whys)
    case Ok(c) => Step(Ok(c), m1.(cert := Some(c), name := Leaf(built.name), subject := Leaf(Str(built.subject))), whys + ["create-cert"])
  }

  /**
    Snake `create_cert(common_name, {conf_args = {}, key_args = {}, days = 9999} = {})`:
    unlike `create_csr`, the key comes first and the config after it.
  */
  function SnakeCreateCert(m: Member, commonName: Json, options: Json, ossl: Openssl): (s: Step<Bytes>)
    ensures options == Leaf(Null) ==> s.result.Err? && s.result.error.TypeErr? && s.member == m
    ensures options != Leaf(Null) && IsRevoked(m) ==> s == Step(Err(Revoked), m, [])
    ensures s.result.Ok? ==>
      var o := OrDefault(options, Obj([]));
      var ks := KeyStep(Snake, m, KeySpecOf(OrDefault(Read(o, "key_args"), Obj([]))), ossl);
      var built := CaConf.Build(commonName, OrDefault(Read(o, "conf_args"), Obj([])));
      && ks.result.Ok? && built.Ok?
      && ossl.createCert(ks.result.value, built.value.conf, OrDefault(Read(o, "days"), Leaf(Num(9999)))) == Ok(s.result.value)
      && s.member == ks.member.(csr := None, cert := Some(s.result.value), name := Leaf(built.value.name),
                                subject := Leaf(Str(built.value.subject)))
      && s.whys == ks.whys + ["create-cert"]
  {
    if options == Leaf(Null) then Step(Err(TypeErr("cannot destructure the options: they are null")), m, [])
    else
      var o := OrDefault(options, Obj([]));
      var ks := KeyStep(Snake, m, KeySpecOf(OrDefault(Read(o, "key_args"), Obj([]))), ossl);
      match ks.result
      case Err(e) => ks
      case Ok(key) =>
        match CaConf.Build(commonName, OrDefault(Read(o, "conf_args"), Obj([])))
        case Err(e) => Step(Err(e), ks.member, ks.whys)
        case Ok(built) => CertTail(ks.member, key, built, OrDefault(Read(o, "days"), Leaf(Num(9999))), ks.whys, ossl)
  }

  /**
    Camel `create_cert(...conf_args)`: `conf_args?.days` reads a field of the
    argument array, which has none, so the certificate is always valid for
    9999 days.
  */
  function CamelCreateCert(m: Member, args: seq<Json>, ossl: Openssl): (s: Step<Bytes>)
    ensures IsRevoked(m) ==> s == Step(Err(Revoked), m, [])
    ensures s.result.Ok? ==>
      var ks := KeyStep(Camel, m, KeySpecOf(Leaf(Undefined)), ossl);
      var built := CaConf.Build(Arg(args, 0), Arg(args, 1));
      && ks.result.Ok? && built.Ok?
      && ossl.createCert(ks.result.value, built.value.conf, Leaf(Num(9999))) == Ok(s.result.value)
      && s.member == ks.member.(csr := None, cert := Some(s.result.value), name := Leaf(built.value.name),
                                subject := Leaf(Str(built.value.subject)))
      && s.whys == ks.whys + ["create-cert"]
  {
    var ks := KeyStep(Camel, m, KeySpecOf(Leaf(Undefined)), ossl);
    match ks.result
    case Err(e) => ks
    case Ok(key) =>
      match CaConf.Build(Arg(args, 0), Arg(args, 1))
      case Err(e) => Step(Err(e), ks.member, ks.whys)
      case Ok(built) => CertTail(ks.member, key, built, Leaf(Num(9999)), ks.whys, ossl)
  }

  // ---------------------------------------------------------------------------
  // Properties
  // ---------------------------------------------------------------------------

  /**
    A member that already has a key keeps it: a request or a certificate is
    made with that key, no key pair is generated and the only update is the
    request's (or certificate's) own.
  */
  lemma KeyKept(f: Family, m: Member, args: seq<Json>, ossl: Openssl)
    requires !IsRevoked(m) && m.privateKey.Some?
    requires CreateCsr(f, m, args, ossl).result.Ok?
    ensures var s := CreateCsr(f, m, args, ossl);
      && s.member.privateKey == m.privateKey && s.member.publicKey == m.publicKey
      && s.whys == ["create-csr"]
      && ossl.createCsr(m.privateKey.value, PlanCsr(f, m.kind, args).value.built.conf) == Ok(s.result.value)
  {
  }

  /** Asking twice: the second request reuses the key the first one left, and generates none. */
  lemma SecondRequestReusesKey(f: Family, m: Member, args1: seq<Json>, args2: seq<Json>, ossl: Openssl)
    requires CreateCsr(f, m, args1, ossl).result.Ok?
    ensures var m1 := CreateCsr(f, m, args1, ossl).member;
      && !IsRevoked(m1) && m1.privateKey.Some?
      && (CreateCsr(f, m1, args2, ossl).result.Ok? ==>
            CreateCsr(f, m1, args2, ossl).member.privateKey == m1.privateKey
            && CreateCsr(f, m1, args2, ossl).whys == ["create-csr"])
  {
    var m1 := CreateCsr(f, m, args1, ossl).member;
    if CreateCsr(f, m1, args2, ossl).result.Ok? {
      KeyKept(f, m1, args2, ossl);
    }
  }

  /** A revoked member cannot ask for a certificate: once the config is built, the key getter throws and nothing changes. */
  lemma RevokedCannotRequest(f: Family, m: Member, args: seq<Json>, ossl: Openssl)
    requires IsRevoked(m)
    ensures CreateCsr(f, m, args, ossl).member == m
    ensures CreateCsr(f, m, args, ossl).whys == []
    ensures CreateCsr(f, m, args, ossl).result.Err?
  {
  }

  /**
    In the snake family the builder's `common_name` is the first argument
    unless `conf_args` holds one of its own, which wins: `Object.assign` lets
    later sources override earlier ones.
  */
  lemma ConfArgsCommonNameWins(kind: Kind, cn: Json, confFields: Dict<Json>, keyArgs: Json)
    requires kind != ClientKind
    requires WellFormed(confFields) && !HasKey(confFields, "__proto__")
    ensures var args := [cn, Obj([("key_args", keyArgs), ("conf_args", Obj(confFields))])];
      && SnakeCsrInput(kind, args).Ok?
      && SnakeCsrInput(kind, args).value.arg.Obj?
      && JsonGet(SnakeCsrInput(kind, args).value.arg.fields, "common_name")
         == if HasKey(confFields, "common_name") then JsonGet(confFields, "common_name") else cn
  {
    var args := [cn, Obj([("key_args", keyArgs), ("conf_args", Obj(confFields))])];
    var opts := Obj([("key_args", keyArgs), ("conf_args", Obj(confFields))]);
    assert Read(opts, "conf_args") == Obj(confFields) by {
      LookupFirst(opts.fields, 1);
    }
    AssignLookup([("common_name", cn)], confFields, "common_name");
  }

  /**
    A client's positional email goes in under its `conf_args`, so an email
    the `conf_args` hold themselves overrides it.
  */
  lemma ConfArgsEmailWins(cn: Json, email: Json, confFields: Dict<Json>, keyArgs: Json)
    requires WellFormed(confFields) && !HasKey(confFields, "__proto__")
    ensures var args := [cn, email, Obj([("key_args", keyArgs), ("conf_args", Obj(confFields))])];
      && SnakeCsrInput(ClientKind, args).Ok?
      && SnakeCsrInput(ClientKind, args).value.arg.Obj?
      && JsonGet(SnakeCsrInput(ClientKind, args).value.arg.fields, "email")
         == if HasKey(confFields, "email") then JsonGet(confFields, "email") else email
  {
    var args := [cn, email, Obj([("key_args", keyArgs), ("conf_args", Obj(confFields))])];
    var opts := Obj([("key_args", keyArgs), ("conf_args", Obj(confFields))]);
    assert Arg(args, 2) == opts && Arg(args, 1) == email && Arg(args, 0) == cn;
    assert Read(opts, "conf_args") == Obj(confFields) by { LookupFirst(opts.fields, 1); }
    var emailOnly := [("email", email)];
    AssignLookup(emailOnly, confFields, "__proto__");
    AssignLookup(emailOnly, confFields, "email");
    var conf := Assign(emailOnly, Obj(confFields)).value;
    assert conf == Merge(emailOnly, confFields);
    MergeWellFormed(emailOnly, confFields);
    assert HasKey(conf, "email") && !HasKey(conf, "__proto__");
    AssignLookup([("common_name", cn)], conf, "email");
  }
}
