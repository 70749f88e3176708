/**
  What a CA does to the members below it (lib/pki/ca.js and
  lib/pki/pki-ca.js): sign a member's request (`sign_csr_for_child`), add a
  new server, client or intermediate CA (`add_server`, `add_client`,
  `add_ca`), revoke a member (`revoke`), and issue and read its certificate
  revocation list (`get_crl`, `get_crl_info`).

  Each of these runs one `openssl ca` command through `#do_ca_operation`,
  which writes the CA's three ledger fields (CRL number, serial, index
  database) to temporary files, renders a config naming them, runs the
  command and reads the files back into the fields.

  The CA is the member at address `at` of the tree `root`. A `Code` argument
  selects the source as it stands or with the defects listed under Findings
  in the README corrected.
*/
module CaOps {
  import opened Wrappers
  import opened JsObject
  import opened Errors
  import opened Text
  import opened ConfArgs
  import opened ConfData
  import opened Backend
  import opened Members
  import opened Events
  import opened ChildLookup
  import opened Requests
  import CaOpsConf
  import CrlOutput

  /** A member handed to an operation: one in the tree, one outside it (a `Child` instance the caller holds), or a search argument. */
  datatype ChildRef = InTree(at: Addr) | Detached(m: Member) | Search(arg: Json)

  predicate RefValid(root: Member, ref: ChildRef) {
    ref.InTree? ==> At(root, ref.at).Some?
  }

  /** A well-formed tree with a member at `at`. */
  predicate CaAt(root: Member, at: Addr) {
    TreeWellFormed(root) && At(root, at).Some?
  }

  // ---------------------------------------------------------------------------
  // #do_ca_operation
  // ---------------------------------------------------------------------------

  /** `if (!this.x) this.x = fallback`. */
  function FixUp(v: Json, fallback: string): Json {
    if JsonTruthy(v) then v else Leaf(Str(fallback))
  }

  predicate IsText(j: Json) {
    j.Leaf? && j.v.Str?
  }

  /** What the operation is handed: the trimmed serial before the run, the config, and the ledger files as written. */
  datatype Prepared = Prepared(serial: string, config: ConfOut, ledger: Ledger)

  /**
    The object given to `for_ca_operations`: the extension name, then the
    temporary paths. The camel family, as written, leaves the extension name
    out.
  */
  function OpsFields(f: Family, paths: TempPaths, ext: string, code: Code): Dict<Json> {
    var ledger := [("serial", Leaf(Str(paths.serial))), ("crlnumber", Leaf(Str(paths.crlnumber))),
                   ("database", Leaf(Str(paths.database))), ("new_certs_dir", Leaf(Str(paths.newCertsDir)))];
    if f == Camel && code == AsWritten then ledger else [("ext", Leaf(Str(ext)))] + ledger
  }

  /**
    The part of `#do_ca_operation` before the command: a falsy ledger field
    is reset (to "00", "00" and ""), which stays on the CA even when a later
    step throws; a field that is then no string cannot be trimmed or
    written.
  */
  function Prepare(f: Family, ca: Member, paths: TempPaths, ext: string, code: Code): (s: Step<Prepared>)
    ensures s.whys == []
    ensures s.member.(crlnumber := ca.crlnumber, serial := ca.serial, database := ca.database) == ca
    ensures s.result.Ok? <==>
      && IsText(FixUp(ca.crlnumber, "00")) && IsText(FixUp(ca.serial, "00")) && IsText(FixUp(ca.database, ""))
      && CaOpsConf.BuildFromObject(OpsFields(f, paths, ext, code)).Ok?
    ensures s.result.Err? && !IsText(FixUp(ca.crlnumber, "00")) ==> s.result.error.TypeErr?
    ensures s.result.Err? ==> !s.result.error.BackendErr?
    ensures s.result.Ok? ==>
      && s.member.crlnumber == FixUp(ca.crlnumber, "00")
      && s.member.serial == FixUp(ca.serial, "00")
      && s.member.database == FixUp(ca.database, "")
      && s.result.value.ledger == Ledger(s.member.crlnumber.v.s, s.member.serial.v.s, s.member.database.v.s)
      && s.result.value.serial == Trim(s.member.serial.v.s)
      && s.result.value.config == CaOpsConf.BuildFromObject(OpsFields(f, paths, ext, code)).value.conf
  {
    var c := FixUp(ca.crlnumber, "00");
    var m1 := ca.(crlnumber := c);
    if !IsText(c) then Step(Err(TypeErr("this.crlnumber.trim is not a function")), m1, [])
    else
      var sr := FixUp(ca.serial, "00");
      var m2 := m1.(serial := sr);
      if !IsText(sr) then Step(Err(TypeErr("this.serial.trim is not a function")), m2, [])
      else
        var db := FixUp(ca.database, "");
        var m3 := m2.(database := db);
        if !IsText(db) then Step(Err(TypeErr("the data to write must be a string")), m3, [])
        else
          match CaOpsConf.BuildFromObject(OpsFields(f, paths, ext, code))
          case Err(e) => Step(Err(e), m3, [])
          case Ok(b) => Step(Ok(Prepared(Trim(sr.v.s), b.conf, Ledger(c.v.s, sr.v.s, db.v.s))), m3, [])
  }

  /** `b` is `a` with at most its ledger fields changed. */
  predicate SameButLedger(a: Member, b: Member) {
    b.(crlnumber := a.crlnumber, serial := a.serial, database := a.database) == a
  }

  /** The tree `r` is `root` with at most the member at `at` replaced, by one keeping its children. */
  predicate OnlyAtChanged(root: Member, at: Addr, r: Member) {
    && At(root, at).Some?
    && (r == root
        || (&& At(r, at).Some?
            && At(r, at).value.children == At(root, at).value.children
            && r == Put(root, at, At(r, at).value)))
  }

  /** The ledger fields of `m` hold the text of the ledger files `l`. */
  predicate LedgerIs(m: Member, l: Ledger) {
    && m.crlnumber == Leaf(Str(l.crlnumber))
    && m.serial == Leaf(Str(l.serial))
    && m.database == Leaf(Str(l.database))
  }

  /** The part after the command: the ledger files as the run left them become the fields. */
  function ReadBack(m: Member, l: Ledger): (r: Member)
    ensures LedgerIs(r, l) && SameButLedger(m, r)
  {
    m.(crlnumber := Leaf(Str(l.crlnumber)), serial := Leaf(Str(l.serial)), database := Leaf(Str(l.database)))
  }

  /**
    `r` holds the ledger fields of `ca` as the bracket reset them before the
    command: a failed command is not followed by the read-back, and nothing
    restores them.
  */
  predicate LedgerReset(ca: Member, r: Member) {
    && r.crlnumber == FixUp(ca.crlnumber, "00")
    && r.serial == FixUp(ca.serial, "00")
    && r.database == FixUp(ca.database, "")
  }

  /** The `openssl ca` run of the CA `ca`: its certificate, key and password, and the config and ledger files prepared for it. */
  function RunOf(ca: Member, prep: Prepared): CaRun {
    CaRun(prep.config, ca.cert, ca.privateKey, ca.privateKeyPassword, prep.ledger)
  }

  /**
    What the backend answers when the CA `ca` signs `csr`, the request of a
    member of kind `kind`, for `days`: the certificate and the ledger files
    as the run left them, or `None` when the preparation throws or the
    command fails.
  */
  function SignReply(f: Family, ca: Member, kind: Kind, csr: Bytes, days: Json, env: Env, code: Code)
    : Option<(Option<Bytes>, Ledger)>
  {
    match Prepare(f, ca, env.paths, KindName(kind), code).result
    case Err(_) => None
    case Ok(prep) =>
      match env.openssl.signCsr(csr, RunOf(ca, prep), days)
      case Err(_) => None
      case Ok(reply) => Some(reply)
  }

  /** What the backend answers when the CA `ca` revokes `cert`, a member of kind `kind`: the ledger files as the run left them. */
  function RevokeReply(f: Family, ca: Member, kind: Kind, cert: Bytes, env: Env, code: Code): Option<Ledger> {
    match Prepare(f, ca, env.paths, KindName(kind), code).result
    case Err(_) => None
    case Ok(prep) =>
      match env.openssl.revokeCert(cert, RunOf(ca, prep))
      case Err(_) => None
      case Ok(l) => Some(l)
  }

  /** What the backend answers when the CA `ca` issues its revocation list: the list and the ledger files as the run left them. */
  function CrlReply(f: Family, ca: Member, env: Env, code: Code): Option<(Option<Bytes>, Ledger)> {
    match Prepare(f, ca, env.paths, "", code).result
    case Err(_) => None
    case Ok(prep) =>
      match env.openssl.genCrl(RunOf(ca, prep))
      case Err(_) => None
      case Ok(reply) => Some(reply)
  }

  /**
    The signing of `m`'s request by the CA `ca` answered the certificate the
    backend returned, and the CA after it, `ca2`, holds the ledger that run
    left.
  */
  predicate SignedWith(f: Family, ca: Member, m: Member, days: Json, env: Env, code: Code, signed: Member, ca2: Member) {
    && m.csr.Some?
    && var reply := SignReply(f, ca, m.kind, m.csr.value, days, env, code);
    && reply.Some? && reply.value.0.Some?
    && signed.cert == reply.value.0
    && LedgerIs(ca2, reply.value.1)
  }

  /** The revocation of `m` by the CA `ca` ran, and the CA after it, `ca2`, holds the ledger that run left. */
  predicate RevokedWith(f: Family, ca: Member, m: Member, env: Env, code: Code, ca2: Member) {
    && m.cert.Some?
    && var l := RevokeReply(f, ca, m.kind, m.cert.value, env, code);
    && l.Some? && LedgerIs(ca2, l.value)
  }

  /**
    The tree `r` after the CA at `at` signed the member at `b`: nothing but
    those two changed; `b` holds `signed`, which differs from what was there
    only in its certificate; the CA's own fields differ only in its ledger
    (and in its certificate, when it signed its own request).
  */
  ghost predicate InTreeSigned(root: Member, at: Addr, b: Addr, r: Member, signed: Member) {
    && At(root, at).Some? && At(root, b).Some?
    && Frame(root, r, {at, b})
    && At(r, b) == Some(signed)
    && (b != at ==>
          && Own(signed) == Own(At(root, b).value).(cert := signed.cert)
          && SameButLedger(Own(At(root, at).value), Own(At(r, at).value)))
    && (b == at ==> SameButLedger(Own(At(root, at).value).(cert := signed.cert), Own(signed)))
  }

  /**
    The tree `r` after the CA at `at` revoked the member at `b`: nothing but
    those two changed; `b` holds `revoked`, which differs from what was there
    only in being revoked; the CA's own fields differ only in its ledger and
    its dropped list.
  */
  ghost predicate InTreeRevoked(root: Member, at: Addr, b: Addr, r: Member, revoked: Member) {
    && At(root, at).Some? && At(root, b).Some?
    && Frame(root, r, {at, b})
    && At(r, b) == Some(revoked)
    && (b != at ==>
          && Own(revoked) == Own(At(root, b).value).(isRevoked := Leaf(Bool(true)))
          && SameButLedger(Own(At(root, at).value).(crl := None), Own(At(r, at).value)))
    && (b == at ==> SameButLedger(Own(At(root, at).value).(isRevoked := Leaf(Bool(true)), crl := None), Own(revoked)))
  }

  /**
    A put at `at` of a member with the same children, followed by changes
    at `b` alone, changes nothing but `at` and `b`; and the put leaves the
    own fields at `b` as they were.
  */
  lemma PutThenFrame(root: Member, at: Addr, m: Member, r: Member, b: Addr)
    requires At(root, at).Some? && At(root, b).Some? && m.children == At(root, at).value.children
    requires Frame(Put(root, at, m), r, {b})
    ensures Frame(root, r, {at, b})
    ensures b != at ==> Own(At(Put(root, at, m), b).value) == Own(At(root, b).value)
    ensures b != at ==> Own(At(r, at).value) == Own(m)
  {
    FramePut(root, at, m);
    FrameTrans(root, Put(root, at, m), r, {at}, {b});
    assert {at} + {b} == {at, b};
  }

  // ---------------------------------------------------------------------------
  // Finding a child
  // ---------------------------------------------------------------------------

  /** `get_child` in the chosen version. */
  function FindChild(code: Code, ca: Member, arg: Json): (r: Result<Option<nat>, Error>)
    ensures r.Ok? && r.value.Some? ==> r.value.value < |ca.children|
  {
    if code == Corrected then GetChild(ca, arg) else GetChildAsWritten(ca, arg)
  }

  /** The member an operation works on and, for one in the tree, its address. */
  datatype Target = Target(m: Member, at: Option<Addr>)

  /** The `i`-th child of the CA, addressed by its serial. */
  function ChildTarget(root: Member, at: Addr, i: nat): (t: Target)
    requires CaAt(root, at) && i < |At(root, at).value.children|
    ensures t.at == Some(at + [At(root, at).value.children[i].0])
    ensures At(root, t.at.value) == Some(t.m)
  {
    var ca := At(root, at).value;
    AtWellFormed(root, at);
    LookupFirst(ca.children, i);
    AtChild(root, at, ca.children[i].0);
    Target(ca.children[i].1, Some(at + [ca.children[i].0]))
  }

  /**
    `child instanceof Child ? child : typeof child === 'string' ?
    this.get_child({serial: child}) : null`, and the `TypeError` when that
    finds nothing.
  */
  function SignTarget(root: Member, at: Addr, ref: ChildRef, code: Code): (r: Result<Target, Error>)
    requires CaAt(root, at) && RefValid(root, ref)
    ensures r.Ok? && r.value.at.Some? ==> At(root, r.value.at.value) == Some(r.value.m)
    ensures ref.InTree? ==> r == Ok(Target(At(root, ref.at).value, Some(ref.at)))
    ensures ref.Detached? ==> r == Ok(Target(ref.m, None))
    ensures ref.Search? && !IsText(ref.arg) ==> r.Err? && r.error.TypeErr?
    ensures r.Ok? && !ref.Detached? ==> r.value.at.Some?
  {
    match ref
    case InTree(b) => Ok(Target(At(root, b).value, Some(b)))
    case Detached(m) => Ok(Target(m, None))
    case Search(arg) =>
      if !IsText(arg) then Err(TypeErr("expecting child to be child serialnumber or Child instance"))
      else
        var found :- FindChild(code, At(root, at).value, Obj([("serial", arg)]));
        if found.None? then Err(TypeErr("expecting child to be child serialnumber or Child instance"))
        else Ok(ChildTarget(root, at, found.value))
  }

  /**
    What `revoke` does with its argument: a `Child` is used as it is,
    anything else is searched for with `get_child`. The snake family first
    rejects a falsy argument.
  */
  function RevokeTarget(f: Family, root: Member, at: Addr, ref: ChildRef, code: Code): (r: Result<Target, Error>)
    requires CaAt(root, at) && RefValid(root, ref)
    ensures r.Ok? && r.value.at.Some? ==> At(root, r.value.at.value) == Some(r.value.m)
    ensures ref.InTree? ==> r == Ok(Target(At(root, ref.at).value, Some(ref.at)))
    ensures ref.Detached? ==> r == Ok(Target(ref.m, None))
    ensures ref.Search? && f == Snake && !JsonTruthy(ref.arg) ==> r.Err? && r.error.RangeErr?
    ensures (ref.Search? && FindChild(code, At(root, at).value, ref.arg) == Ok(None)
             && (f == Camel || JsonTruthy(ref.arg))) ==> r.Err? && r.error.RangeErr?
    ensures r.Ok? && !ref.Detached? ==> r.value.at.Some?
  {
    match ref
    case InTree(b) => Ok(Target(At(root, b).value, Some(b)))
    case Detached(m) => Ok(Target(m, None))
    case Search(arg) =>
      if f == Snake && !JsonTruthy(arg) then Err(RangeErr("child is empty"))
      else
        var found :- FindChild(code, At(root, at).value, arg);
        if found.None? then Err(RangeErr("no such child"))
        else Ok(ChildTarget(root, at, found.value))
  }

  // ---------------------------------------------------------------------------
  // sign_csr_for_child
  // ---------------------------------------------------------------------------

  /** `days ?? 9999` from the options of a signing. */
  function SignDays(options: Json): Json {
    OrIfNullish(Read(options, "days"), Leaf(Num(9999)))
  }

  /**
    `sign_csr_for_child(child, {days})`: the child must have a request and
    the CA a certificate and a key (read through the revocation guard);
    `days ?? 9999`; the CA's `openssl ca` run signs the request with the
    extension section of the child's kind; the child gets the certificate
    the run returned, the CA the ledger the run left, and the call answers
    the serial the CA's ledger held before the run, which is the serial
    `openssl ca` gave the new certificate.
  */
  function SignCsrForChild(f: Family, root: Member, at: Addr, ref: ChildRef, options: Json, env: Env, code: Code)
    : (o: Outcome<(string, Member)>)
    requires CaAt(root, at) && RefValid(root, ref)
    ensures CaAt(o.root, at)
    ensures o.result.Err? ==> o.events == []
    ensures o.result.Ok? ==> o.events == Emitted(f, at, "sign-csr")
    ensures options == Leaf(Null) ==> o.result.Err? && o.result.error.TypeErr? && o.root == root
    ensures o.result.Ok? ==>
      var ca := At(root, at).value;
      && !IsRevoked(ca) && ca.cert.Some? && ca.privateKey.Some?
      && IsText(FixUp(ca.serial, "00"))
      && o.result.value.0 == Trim(FixUp(ca.serial, "00").v.s)
    ensures o.result.Ok? ==> o.result.value.1.cert.Some? && !IsRevoked(o.result.value.1)
    ensures o.result.Ok? && ref.InTree? ==> At(o.root, ref.at) == Some(o.result.value.1)
    ensures o.result.Ok? && ref.Detached? ==> o.result.value.1 == ref.m.(cert := o.result.value.1.cert)
    ensures ref.Detached? || o.result.Err? ==>
      OnlyAtChanged(root, at, o.root) && SameButLedger(At(root, at).value, At(o.root, at).value)
    ensures o.result.Ok? ==>
      && SignTarget(root, at, ref, code).Ok?
      && SignedWith(f, At(root, at).value, SignTarget(root, at, ref, code).value.m, SignDays(options), env, code,
                    o.result.value.1, At(o.root, at).value)
    ensures o.result.Ok? && !ref.Detached? ==>
      && SignTarget(root, at, ref, code).Ok? && SignTarget(root, at, ref, code).value.at.Some?
      && InTreeSigned(root, at, SignTarget(root, at, ref, code).value.at.value, o.root, o.result.value.1)
  {
    if options == Leaf(Null) then Outcome(Err(TypeErr("cannot destructure the options: they are null")), root, [])
    else
      match SignTarget(root, at, ref, code)
      case Err(e) => Outcome(Err(e), root, [])
      case Ok(t) =>
        var ca := At(root, at).value;
        if t.m.csr.None? then Outcome(Err(TypeErr("child has no csr")), root, [])
        else if IsRevoked(ca) then Outcome(Err(Revoked), root, [])
        else if ca.cert.None? || ca.privateKey.None? then
          Outcome(Err(Thrown("this.cert and this.private_key are required to sign a csr")), root, [])
        else SignRun(f, root, at, t, SignDays(options), env, code)
  }

  /** The `openssl ca` run of a signing. */
  function SignRun(f: Family, root: Member, at: Addr, t: Target, days: Json, env: Env, code: Code)
    : (o: Outcome<(string, Member)>)
    requires CaAt(root, at) && t.m.csr.Some?
    requires t.at.Some? ==> At(root, t.at.value) == Some(t.m)
    ensures CaAt(o.root, at)
    ensures o.result.Err? ==> o.events == []
    ensures o.result.Ok? ==> o.events == Emitted(f, at, "sign-csr")
    ensures o.result.Ok? ==>
      var ca := At(root, at).value;
      IsText(FixUp(ca.serial, "00")) && o.result.value.0 == Trim(FixUp(ca.serial, "00").v.s)
    ensures o.result.Ok? ==> o.result.value.1.cert.Some? && !IsRevoked(o.result.value.1)
    ensures o.result.Ok? && t.at.Some? ==> At(o.root, t.at.value) == Some(o.result.value.1)
    ensures o.result.Ok? && t.at.None? ==> o.result.value.1 == t.m.(cert := o.result.value.1.cert)
    ensures t.at.None? || o.result.Err? ==>
      OnlyAtChanged(root, at, o.root) && SameButLedger(At(root, at).value, At(o.root, at).value)
    ensures o.result.Ok? ==> SignedWith(f, At(root, at).value, t.m, days, env, code, o.result.value.1, At(o.root, at).value)
    ensures o.result.Ok? && t.at.Some? ==> InTreeSigned(root, at, t.at.value, o.root, o.result.value.1)
  {
    var ca := At(root, at).value;
    var p := Prepare(f, ca, env.paths, KindName(t.m.kind), code);
    AtWellFormed(root, at);
    PutWellFormed(root, at, p.member);
    var root1 := Put(root, at, p.member);
    match p.result
    case Err(e) => Outcome(Err(e), root1, [])
    case Ok(prep) =>
      match env.openssl.signCsr(t.m.csr.value, RunOf(ca, prep), days)
      case Err(e) => Outcome(Err(BackendErr(e)), root1, [])
      case Ok(reply) =>
        assert SignReply(f, ca, t.m.kind, t.m.csr.value, days, env, code) == Some(reply);
        SignApply(f, root, at, t, p.member, prep.serial, reply)
  }

  /** The part of a signing after the command: the ledger is read back and the certificate given to the member. */
  function SignApply(f: Family, root: Member, at: Addr, t: Target, pm: Member, serial: string, reply: (Option<Bytes>, Ledger))
    : (o: Outcome<(string, Member)>)
    requires CaAt(root, at) && SameButLedger(At(root, at).value, pm)
    requires t.at.Some? ==> At(root, t.at.value) == Some(t.m)
    ensures CaAt(o.root, at)
    ensures o.result.Err? ==> o.events == []
    ensures o.result.Ok? ==> o.events == Emitted(f, at, "sign-csr") && o.result.value.0 == serial
    ensures o.result.Ok? ==> o.result.value.1.cert.Some? && !IsRevoked(o.result.value.1)
    ensures o.result.Ok? && t.at.Some? ==> At(o.root, t.at.value) == Some(o.result.value.1)
    ensures o.result.Ok? && t.at.None? ==> o.result.value.1 == t.m.(cert := o.result.value.1.cert)
    ensures t.at.None? || o.result.Err? ==>
      OnlyAtChanged(root, at, o.root) && SameButLedger(At(root, at).value, At(o.root, at).value)
    ensures o.result.Ok? ==>
      reply.0.Some? && o.result.value.1.cert == reply.0 && LedgerIs(At(o.root, at).value, reply.1)
    ensures o.result.Err? ==> !o.result.error.BackendErr?
    ensures o.result.Ok? && t.at.Some? ==> InTreeSigned(root, at, t.at.value, o.root, o.result.value.1)
  {
    var ca2 := ReadBack(pm, reply.1);
    AtWellFormed(root, at);
    PutWellFormed(root, at, ca2);
    var root2 := Put(root, at, ca2);
    if reply.0.None? then Outcome(Err(Thrown("no signed cert returned; sign_csr() probably failed")), root2, [])
    else
      PutKeepsTarget(root, at, ca2, t);
      var o := SignFinish(f, root2, at, t, reply.0.value, serial);
      if o.result.Ok? && t.at.Some? then
        PutThenFrame(root, at, ca2, o.root, t.at.value);
        o
      else o
  }

  /** `child_pki_member.cert = signed_cert`, through the guarded setter, and the `'sign-csr'` event. */
  function SignFinish(f: Family, root: Member, at: Addr, t: Target, cert: Bytes, serial: string)
    : (o: Outcome<(string, Member)>)
    requires CaAt(root, at)
    requires t.at.Some? ==> At(root, t.at.value).Some?
    ensures CaAt(o.root, at)
    ensures o.result.Err? ==> o.events == [] && o.root == root
    ensures o.result.Ok? ==> o.events == Emitted(f, at, "sign-csr") && o.result.value.0 == serial
    ensures o.result.Ok? ==> o.result.value.1.cert == Some(cert) && !IsRevoked(o.result.value.1)
    ensures o.result.Ok? && t.at.Some? ==> At(o.root, t.at.value) == Some(o.result.value.1)
    ensures o.result.Ok? && t.at.None? ==> o.result.value.1 == t.m.(cert := Some(cert))
    ensures t.at.None? ==> o.root == root
    ensures o.result.Ok? && t.at.Some? ==>
      && Frame(root, o.root, {t.at.value})
      && Own(o.result.value.1) == Own(At(root, t.at.value).value).(cert := Some(cert))
  {
    match t.at
    case None =>
      (match SetCert(t.m, Some(cert))
       case Err(e) => Outcome(Err(e), root, [])
       case Ok(c) => Outcome(Ok((serial, c)), root, Emitted(f, at, "sign-csr")))
    case Some(b) =>
      var now := At(root, b).value;
      match SetCert(now, Some(cert))
      case Err(e) => Outcome(Err(e), root, [])
      case Ok(c) =>
        AtWellFormed(root, b);
        PutWellFormed(root, b, c);
        PutKeepsShape(root, b, c, at);
        FramePut(root, b, c);
        Outcome(Ok((serial, c)), Put(root, b, c), Emitted(f, at, "sign-csr"))
  }

  // ---------------------------------------------------------------------------
  // add_server, add_client, add_ca
  // ---------------------------------------------------------------------------

  /**
    `#add_child(serial, child)`: `this.children[serial] = child`. A serial
    `__proto__` would replace the prototype of the children object instead,
    which the model does not follow.
  */
  function AddChild(f: Family, root: Member, at: Addr, serial: string, child: Member): (o: Outcome<Addr>)
    requires CaAt(root, at) && TreeWellFormed(child)
    ensures CaAt(o.root, at)
    ensures serial == "__proto__" <==> o.result.Err?
    ensures o.result.Err? ==> o.root == root && o.events == []
    ensures o.result.Ok? ==>
      && o.result.value == at + [serial]
      && At(o.root, at + [serial]) == Some(child)
      && o.events == Emitted(f, at, "add-child")
    ensures o.result.Ok? ==> ChildAdded(root, o.root, at, serial)
  {
    if serial == "__proto__" then Outcome(Err(Unmodelled("a child stored under __proto__")), root, [])
    else
      var ca := At(root, at).value;
      var ca' := ca.(children := Set(ca.children, serial, child));
      AtWellFormed(root, at);
      SetWellFormed(ca.children, serial, child);
      SetElements(ca.children, serial, child);
      assert TreeWellFormed(ca') by {
        forall i | 0 <= i < |ca'.children|
          ensures TreeWellFormed(ca'.children[i].1)
        {
          assert ca'.children[i] in ca.children || ca'.children[i] == (serial, child);
        }
      }
      PutWellFormed(root, at, ca');
      var root' := Put(root, at, ca');
      SetLookup(ca.children, serial, child, serial);
      SetKeepsOthers(ca.children, serial, child);
      AtChild(root', at, serial);
      PutOffPath(root, at, ca');
      Outcome(Ok(at + [serial]), root', Emitted(f, at, "add-child"))
  }

  /**
    The tree `r` is `root` with at most the child `serial` of the CA at `at`
    set: the CA's own fields, its other children, its ancestors' own fields
    and every other branch are as they were.
  */
  ghost predicate ChildAdded(root: Member, r: Member, at: Addr, serial: string) {
    && At(root, at).Some? && At(r, at).Some?
    && Own(At(r, at).value) == Own(At(root, at).value)
    && (forall k :: k != serial ==> Lookup(At(r, at).value.children, k) == Lookup(At(root, at).value.children, k))
    && OtherBranchesKept(root, r, at)
    && AncestorsKept(root, r, at)
  }

  /**
    What a successful `add_*` leaves in the tree `r`: the member `s` that
    made the request sits under the serial the CA's ledger held before the
    signing, holding the certificate the backend returned for its request;
    the CA holds the ledger that run left; the CA's other own fields, its
    other children, its ancestors' own fields and every other branch are as
    they were.
  */
  ghost predicate Added(f: Family, root: Member, r: Member, at: Addr, b: Addr, s: Member, days: Json, env: Env, code: Code) {
    && At(root, at).Some? && At(r, at).Some?
    && var ca := At(root, at).value;
    && IsText(FixUp(ca.serial, "00"))
    && b == at + [Trim(FixUp(ca.serial, "00").v.s)]
    && At(r, b).Some? && At(r, b).value == s.(cert := At(r, b).value.cert)
    && SignedWith(f, ca, s, days, env, code, At(r, b).value, At(r, at).value)
    && SameButLedger(Own(ca), Own(At(r, at).value))
    && (forall k :: k != b[|at|] ==> Lookup(At(r, at).value.children, k) == Lookup(ca.children, k))
    && OtherBranchesKept(root, r, at)
    && AncestorsKept(root, r, at)
  }

  /** A tree in which only the member at `at` changed, keeping its children, keeps every other branch and every ancestor's own fields. */
  lemma OnlyAtChangedKeeps(root: Member, at: Addr, r: Member)
    requires OnlyAtChanged(root, at, r)
    ensures OtherBranchesKept(root, r, at) && AncestorsKept(root, r, at)
  {
    if r == root {
      forall j | 0 <= j < |at|
        ensures At(root, at[..j]).Some?
      {
        AtPrefix(root, at, j);
      }
    } else {
      PutOffPath(root, at, At(r, at).value);
    }
  }

  /** A detached signing followed by setting the signed member as a child leaves what an `add_*` promises. */
  lemma AddedAfterSigning(f: Family, root: Member, at: Addr, s: Member, days: Json, env: Env, code: Code,
                          mid: Member, signed: (string, Member), r: Member)
    requires CaAt(root, at)
    requires OnlyAtChanged(root, at, mid) && SameButLedger(At(root, at).value, At(mid, at).value)
    requires SignedWith(f, At(root, at).value, s, days, env, code, signed.1, At(mid, at).value)
    requires IsText(FixUp(At(root, at).value.serial, "00")) && signed.0 == Trim(FixUp(At(root, at).value.serial, "00").v.s)
    requires signed.1 == s.(cert := signed.1.cert)
    requires At(r, at + [signed.0]) == Some(signed.1) && ChildAdded(mid, r, at, signed.0)
    ensures Added(f, root, r, at, at + [signed.0], s, days, env, code)
  {
    OnlyAtChangedKeeps(root, at, mid);
    KeptTrans(root, mid, r, at);
    var ca, m, n := At(root, at).value, At(mid, at).value, At(r, at).value;
    var b := at + [signed.0];
    assert m.children == ca.children;
    assert Own(n) == Own(m);
    assert n.crlnumber == m.crlnumber && n.serial == m.serial && n.database == m.database by {
      assert Own(n).crlnumber == n.crlnumber && Own(n).serial == n.serial && Own(n).database == n.database;
    }
    assert SignedWith(f, ca, s, days, env, code, signed.1, n);
    assert SameButLedger(Own(ca), Own(n));
    assert b[|at|] == signed.0;
    assert forall k :: k != b[|at|] ==> Lookup(n.children, k) == Lookup(ca.children, k);
  }

  /** The arguments of an `add_*` call once read: the common name, `days` and the two argument objects for the request. */
  datatype AddArgs = AddArgs(commonName: Json, days: Json, keyArgs: Json, confArgs: Json)

  /**
    Snake `add_*(common_name, {days = 9999, key_args = {}, conf_args} = {})`:
    a first argument that is an object with an own `common_name` supplies
    all four instead. The test calls the object's `hasOwnProperty`, so an
    object whose own `hasOwnProperty` key holds data (never a function here)
    throws a TypeError.
  */
  function SnakeAddArgs(commonName: Json, options: Json): (r: Result<AddArgs, Error>)
    ensures r.Err? <==> options == Leaf(Null) || (commonName.Obj? && HasKey(commonName.fields, "hasOwnProperty"))
    ensures r.Err? ==> r.error.TypeErr?
    ensures r.Ok? && commonName.Obj? && HasKey(commonName.fields, "common_name") ==>
      r.value == AddArgs(JsonGet(commonName.fields, "common_name"), JsonGet(commonName.fields, "days"),
                         JsonGet(commonName.fields, "key_args"), JsonGet(commonName.fields, "conf_args"))
    ensures r.Ok? && !(commonName.Obj? && HasKey(commonName.fields, "common_name")) ==>
      && r.value.commonName == commonName
      && r.value.days == (if Read(options, "days") == Leaf(Undefined) then Leaf(Num(9999)) else Read(options, "days"))
      && r.value.confArgs == Read(options, "conf_args")
  {
    if options == Leaf(Null) then Err(TypeErr("cannot destructure the options: they are null"))
    else if commonName.Obj? && HasKey(commonName.fields, "hasOwnProperty") then
      Err(TypeErr("common_name.hasOwnProperty is not a function"))
    else if commonName.Obj? && HasKey(commonName.fields, "common_name") then
      var fs := commonName.fields;
      Ok(AddArgs(JsonGet(fs, "common_name"), JsonGet(fs, "days"), JsonGet(fs, "key_args"), JsonGet(fs, "conf_args")))
    else
      Ok(AddArgs(commonName, OrDefault(Read(options, "days"), Leaf(Num(9999))),
                 OrDefault(Read(options, "key_args"), Obj([])), Read(options, "conf_args")))
  }

  /**
    The arguments the snake `add_*` passes to the new member's `create_csr`:
    `(common_name, {key_args, conf_args})`. A client's `create_csr` takes its
    email before the options, so the corrected version passes
    `(common_name, undefined, {key_args, conf_args})`; the email the caller
    gives in `conf_args` still reaches the request.
  */
  function SnakeCsrArgs(kind: Kind, a: AddArgs, code: Code): seq<Json> {
    var opts := Obj([("key_args", a.keyArgs), ("conf_args", a.confArgs)]);
    if kind == ClientKind && code == Corrected then [a.commonName, Leaf(Undefined), opts]
    else [a.commonName, opts]
  }

  /** The event an `add_*` call ends with. */
  function AddWhy(kind: Kind): string {
    "add-" + KindName(kind)
  }

  /** `b` addresses a new child of the CA at `at`, of the kind asked for. */
  predicate NewChild(root: Member, at: Addr, b: Addr, kind: Kind) {
    && |b| == |at| + 1 && b[..|at|] == at
    && At(root, b).Some? && At(root, b).value.kind == kind
  }

  /** The events of an `add_*` call: the signing's, the new child's, then the call's own. */
  function AddEvents(f: Family, at: Addr, kind: Kind): seq<Event> {
    Emitted(f, at, "sign-csr") + Emitted(f, at, "add-child") + Emitted(f, at, AddWhy(kind))
  }

  /**
    The shared body of every `add_*`: a new member of the kind makes its
    request (its own events reach no listener: it has none and no parent
    yet), the CA signs it, and it becomes the child under the serial the
    signing answered.
  */
  function AddFresh(f: Family, root: Member, at: Addr, kind: Kind, csrArgs: seq<Json>, days: Json, env: Env, code: Code)
    : (o: Outcome<Addr>)
    requires CaAt(root, at)
    ensures CaAt(o.root, at)
    ensures o.result.Err? ==> o.events == []
    ensures CreateCsr(f, Fresh(kind), csrArgs, env.openssl).result.Err? ==>
      o == Outcome(Err(CreateCsr(f, Fresh(kind), csrArgs, env.openssl).result.error), root, [])
    ensures o.result.Err? ==> At(o.root, at).value.children == At(root, at).value.children
    ensures o.result.Ok? ==>
      && CreateCsr(f, Fresh(kind), csrArgs, env.openssl).result.Ok?
      && NewChild(o.root, at, o.result.value, kind)
      && At(o.root, o.result.value).value.cert.Some?
      && At(o.root, o.result.value).value.csr == CreateCsr(f, Fresh(kind), csrArgs, env.openssl).member.csr
      && o.events == AddEvents(f, at, kind)
    ensures o.result.Ok? ==>
      Added(f, root, o.root, at, o.result.value, CreateCsr(f, Fresh(kind), csrArgs, env.openssl).member,
            SignDays(Obj([("days", days)])), env, code)
  {
    var s := CreateCsr(f, Fresh(kind), csrArgs, env.openssl);
    match s.result
    case Err(e) => Outcome(Err(e), root, [])
    case Ok(_) =>
      var sig := SignCsrForChild(f, root, at, Detached(s.member), Obj([("days", days)]), env, code);
      match sig.result
      case Err(e) => Outcome(Err(e), sig.root, [])
      case Ok(signed) =>
        assert signed.1.children == [];
        var o := AddSigned(f, sig.root, at, kind, signed.0, signed.1, sig.events);
        if o.result.Ok? then
          AddedAfterSigning(f, root, at, s.member, SignDays(Obj([("days", days)])), env, code, sig.root, signed, o.root);
          o
        else o
  }

  /** The end of an `add_*`: the signed member becomes the child under its serial. */
  function AddSigned(f: Family, root: Member, at: Addr, kind: Kind, serial: string, child: Member, events: seq<Event>)
    : (o: Outcome<Addr>)
    requires CaAt(root, at) && child.children == [] && child.kind == kind
    ensures CaAt(o.root, at)
    ensures o.result.Err? ==> o.root == root && o.events == []
    ensures o.result.Ok? ==>
      && NewChild(o.root, at, o.result.value, kind)
      && At(o.root, o.result.value) == Some(child)
      && o.events == events + Emitted(f, at, "add-child") + Emitted(f, at, AddWhy(kind))
    ensures o.result.Ok? ==> o.result.value == at + [serial] && ChildAdded(root, o.root, at, serial)
  {
    var add := AddChild(f, root, at, serial, child);
    if add.result.Err? then Outcome(Err(add.result.error), add.root, [])
    else
      assert add.result.value[..|at|] == at;
      Outcome(add.result, add.root, events + add.events + Emitted(f, at, AddWhy(kind)))
  }

  /** Snake `add_server`, `add_client` and `add_ca`. */
  function SnakeAdd(root: Member, at: Addr, kind: Kind, commonName: Json, options: Json, env: Env, code: Code)
    : (o: Outcome<Addr>)
    requires CaAt(root, at)
    ensures CaAt(o.root, at)
    ensures o.result.Err? ==> o.events == []
    ensures options == Leaf(Null) ==> o.result.Err? && o.result.error.TypeErr? && o.root == root
    ensures commonName.Obj? && HasKey(commonName.fields, "hasOwnProperty") ==>
      o.result.Err? && o.result.error.TypeErr? && o.root == root
    ensures o.result.Err? ==> At(o.root, at).value.children == At(root, at).value.children
    ensures o.result.Ok? ==> NewChild(o.root, at, o.result.value, kind) && o.events == AddEvents(Snake, at, kind)
    ensures o.result.Ok? ==>
      && SnakeAddArgs(commonName, options).Ok?
      && var a := SnakeAddArgs(commonName, options).value;
      && Added(Snake, root, o.root, at, o.result.value, CreateCsr(Snake, Fresh(kind), SnakeCsrArgs(kind, a, code), env.openssl).member,
               SignDays(Obj([("days", a.days)])), env, code)
  {
    match SnakeAddArgs(commonName, options)
    case Err(e) => Outcome(Err(e), root, [])
    case Ok(a) => AddFresh(Snake, root, at, kind, SnakeCsrArgs(kind, a, code), a.days, env, code)
  }

  /** `conf_args[conf_args.length - 1]?.days ?? 9999`. */
  function LastDays(args: seq<Json>): Json {
    var last := if |args| == 0 then Leaf(Undefined) else args[|args| - 1];
    OrIfNullish(Read(last, "days"), Leaf(Num(9999)))
  }

  /**
    Camel `add_server(...conf_args)`, `add_client(...conf_args)` and
    `add_ca(...conf_args)`: the arguments go to `create_csr` unchanged;
    `days` comes from the last argument, except that `add_ca` always signs
    for 9999 days.
  */
  function CamelAdd(root: Member, at: Addr, kind: Kind, args: seq<Json>, env: Env, code: Code): (o: Outcome<Addr>)
    requires CaAt(root, at)
    ensures CaAt(o.root, at)
    ensures o.result.Err? ==> o.events == []
    ensures CamelCsrConf(kind, args).Err? ==> o.result.Err? && o.root == root
    ensures o.result.Err? ==> At(o.root, at).value.children == At(root, at).value.children
    ensures o.result.Ok? ==> NewChild(o.root, at, o.result.value, kind) && o.events == AddEvents(Camel, at, kind)
    ensures o.result.Ok? ==>
      Added(Camel, root, o.root, at, o.result.value, CreateCsr(Camel, Fresh(kind), args, env.openssl).member,
            SignDays(Obj([("days", if kind == CaKind then Leaf(Num(9999)) else LastDays(args))])), env, code)
  {
    AddFresh(Camel, root, at, kind, args, if kind == CaKind then Leaf(Num(9999)) else LastDays(args), env, code)
  }

  // ---------------------------------------------------------------------------
  // revoke
  // ---------------------------------------------------------------------------

  /**
    `revoke(child)`: the child must hold a certificate (read through the
    guard, so a revoked child throws); the CA's `openssl ca` run revokes it;
    then `is_revoked = true` on the child and `crl = null` on the CA, whose
    cached list is out of date. The answer is the revoked member as the call
    left it.
  */
  function Revoke(f: Family, root: Member, at: Addr, ref: ChildRef, env: Env, code: Code): (o: Outcome<Member>)
    requires CaAt(root, at) && RefValid(root, ref)
    ensures CaAt(o.root, at)
    ensures o.result.Err? ==> o.events == []
    ensures o.result.Ok? ==>
      && o.events == Emitted(f, at, "revoke")
      && IsRevoked(o.result.value) && o.result.value.cert.Some?
      && At(o.root, at).value.crl == None
      && !IsRevoked(At(root, at).value)
    ensures o.result.Ok? && ref.InTree? ==> At(o.root, ref.at) == Some(o.result.value)
    ensures ref.Search? && f == Snake && !JsonTruthy(ref.arg) ==> o.result.Err? && o.result.error.RangeErr? && o.root == root
    ensures ref.InTree? && IsRevoked(At(root, ref.at).value) ==> o == Outcome(Err(Revoked), root, [])
    ensures o.result.Err? ==> OnlyAtChanged(root, at, o.root) && SameButLedger(At(root, at).value, At(o.root, at).value)
    ensures o.result.Ok? ==>
      && RevokeTarget(f, root, at, ref, code).Ok?
      && RevokedWith(f, At(root, at).value, RevokeTarget(f, root, at, ref, code).value.m, env, code, At(o.root, at).value)
    ensures o.result.Ok? && ref.Detached? ==>
      && o.result.value == ref.m.(isRevoked := Leaf(Bool(true)))
      && OnlyAtChanged(root, at, o.root)
      && SameButLedger(At(root, at).value.(crl := None), At(o.root, at).value)
    ensures o.result.Ok? && !ref.Detached? ==>
      && RevokeTarget(f, root, at, ref, code).Ok? && RevokeTarget(f, root, at, ref, code).value.at.Some?
      && InTreeRevoked(root, at, RevokeTarget(f, root, at, ref, code).value.at.value, o.root, o.result.value)
  {
    match RevokeTarget(f, root, at, ref, code)
    case Err(e) => Outcome(Err(e), root, [])
    case Ok(t) =>
      if IsRevoked(t.m) then Outcome(Err(Revoked), root, [])
      else if t.m.cert.None? then Outcome(Err(Thrown("child has no cert")), root, [])
      else RevokeRun(f, root, at, t, env, code)
  }

  /** The `openssl ca` run of a revocation. */
  function RevokeRun(f: Family, root: Member, at: Addr, t: Target, env: Env, code: Code): (o: Outcome<Member>)
    requires CaAt(root, at) && t.m.cert.Some? && !IsRevoked(t.m)
    requires t.at.Some? ==> At(root, t.at.value) == Some(t.m)
    ensures CaAt(o.root, at)
    ensures o.result.Err? ==> o.events == []
    ensures o.result.Ok? ==>
      && o.events == Emitted(f, at, "revoke")
      && IsRevoked(o.result.value) && o.result.value.cert.Some?
      && At(o.root, at).value.crl == None
      && !IsRevoked(At(root, at).value)
    ensures o.result.Ok? && t.at.Some? ==> At(o.root, t.at.value) == Some(o.result.value)
    ensures o.result.Err? ==> OnlyAtChanged(root, at, o.root) && SameButLedger(At(root, at).value, At(o.root, at).value)
    ensures o.result.Ok? ==> RevokedWith(f, At(root, at).value, t.m, env, code, At(o.root, at).value)
    ensures o.result.Ok? && t.at.None? ==>
      && o.result.value == t.m.(isRevoked := Leaf(Bool(true)))
      && OnlyAtChanged(root, at, o.root)
      && SameButLedger(At(root, at).value.(crl := None), At(o.root, at).value)
    ensures o.result.Ok? && t.at.Some? ==> InTreeRevoked(root, at, t.at.value, o.root, o.result.value)
  {
    var ca := At(root, at).value;
    var p := Prepare(f, ca, env.paths, KindName(t.m.kind), code);
    AtWellFormed(root, at);
    PutWellFormed(root, at, p.member);
    var root1 := Put(root, at, p.member);
    match p.result
    case Err(e) => Outcome(Err(e), root1, [])
    case Ok(prep) =>
      if IsRevoked(ca) then Outcome(Err(Revoked), root1, [])
      else
        match env.openssl.revokeCert(t.m.cert.value, RunOf(ca, prep))
        case Err(e) => Outcome(Err(BackendErr(e)), root1, [])
        case Ok(l) =>
          assert RevokeReply(f, ca, t.m.kind, t.m.cert.value, env, code) == Some(l);
          RevokeApply(f, root, at, t, p.member, l)
  }

  /** The part of a revocation after the command: the ledger is read back and the member marked revoked. */
  function RevokeApply(f: Family, root: Member, at: Addr, t: Target, pm: Member, l: Ledger): (o: Outcome<Member>)
    requires CaAt(root, at) && SameButLedger(At(root, at).value, pm) && t.m.cert.Some?
    requires t.at.Some? ==> At(root, t.at.value) == Some(t.m)
    ensures CaAt(o.root, at) && o.result.Ok?
    ensures o.events == Emitted(f, at, "revoke")
    ensures IsRevoked(o.result.value) && o.result.value.cert.Some?
    ensures At(o.root, at).value.crl == None
    ensures t.at.Some? ==> At(o.root, t.at.value) == Some(o.result.value)
    ensures LedgerIs(At(o.root, at).value, l)
    ensures t.at.None? ==>
      && o.result.value == t.m.(isRevoked := Leaf(Bool(true)))
      && OnlyAtChanged(root, at, o.root)
      && SameButLedger(At(root, at).value.(crl := None), At(o.root, at).value)
    ensures t.at.Some? ==> InTreeRevoked(root, at, t.at.value, o.root, o.result.value)
  {
    var ca2 := ReadBack(pm, l);
    AtWellFormed(root, at);
    PutWellFormed(root, at, ca2);
    var root2 := Put(root, at, ca2);
    PutKeepsTarget(root, at, ca2, t);
    var o := RevokeFinish(f, root2, at, t);
    if t.at.Some? then
      RevokeAfterReadBack(root, at, ca2, o.root, t.at.value, o.result.value, l);
      o
    else
      PutTwice(root, at, ca2, ca2.(crl := None));
      o
  }

  /** The frame of a revocation in the tree, seen from before the ledger was read back. */
  lemma RevokeAfterReadBack(root: Member, at: Addr, ca2: Member, r: Member, b: Addr, v: Member, l: Ledger)
    requires At(root, at).Some? && At(root, b).Some? && ca2.children == At(root, at).value.children
    requires SameButLedger(At(root, at).value, ca2) && LedgerIs(ca2, l)
    requires InTreeRevoked(Put(root, at, ca2), at, b, r, v) && SameLedger(ca2, At(r, at).value)
    ensures InTreeRevoked(root, at, b, r, v) && LedgerIs(At(r, at).value, l)
  {
    PutThenFrameBoth(root, at, ca2, r, b);
    if b == at {
      assert SameButLedger(Own(ca2).(isRevoked := Leaf(Bool(true)), crl := None), Own(v));
    } else {
      assert Own(At(Put(root, at, ca2), b).value) == Own(At(root, b).value);
      assert SameButLedger(Own(ca2).(crl := None), Own(At(r, at).value));
    }
  }

  /**
    A put at `at` of a member with the same children, followed by changes
    at `at` and `b` alone, changes nothing but `at` and `b`; and the put
    leaves the own fields at `b` as they were.
  */
  lemma PutThenFrameBoth(root: Member, at: Addr, m: Member, r: Member, b: Addr)
    requires At(root, at).Some? && At(root, b).Some? && m.children == At(root, at).value.children
    requires Frame(Put(root, at, m), r, {at, b})
    ensures Frame(root, r, {at, b})
    ensures b != at ==> Own(At(Put(root, at, m), b).value) == Own(At(root, b).value)
  {
    FramePut(root, at, m);
    FrameTrans(root, Put(root, at, m), r, {at}, {at, b});
    assert {at} + {at, b} == {at, b};
  }

  /** Putting a member with the same own fields keeps every member's own fields, wherever it is. */
  lemma PutSameFields(root: Member, a: Addr, m: Member, b: Addr)
    requires At(root, a).Some? && m.children == At(root, a).value.children && At(root, b).Some?
    requires m.isRevoked == At(root, a).value.isRevoked && m.cert == At(root, a).value.cert
    ensures At(Put(root, a, m), b).Some?
    ensures At(Put(root, a, m), b).value.isRevoked == At(root, b).value.isRevoked
    ensures At(Put(root, a, m), b).value.cert == At(root, b).value.cert
  {
    PutKeepsShape(root, a, m, b);
    if b == a {
    } else if |b| <= |a| && a[..|b|] == b {
      PutKeepsAncestors(root, a, m, |b|);
    } else {
      PutSameChildren(root, a, m, b);
    }
  }

  /** A put at the CA that changes only its ledger keeps the target where it was, with its revocation state and certificate. */
  lemma PutKeepsTarget(root: Member, a: Addr, m: Member, t: Target)
    requires At(root, a).Some? && m.children == At(root, a).value.children
    requires m.isRevoked == At(root, a).value.isRevoked && m.cert == At(root, a).value.cert
    requires t.at.Some? ==> At(root, t.at.value).Some?
    ensures t.at.Some? ==> At(Put(root, a, m), t.at.value).Some?
    ensures t.at.Some? ==> At(Put(root, a, m), t.at.value).value.isRevoked == At(root, t.at.value).value.isRevoked
    ensures t.at.Some? ==> At(Put(root, a, m), t.at.value).value.cert == At(root, t.at.value).value.cert
  {
    if t.at.Some? {
      PutSameFields(root, a, m, t.at.value);
    }
  }

  /** `child.is_revoked = true; this.crl = null` and the `'revoke'` event. */
  function RevokeFinish(f: Family, root: Member, at: Addr, t: Target): (o: Outcome<Member>)
    requires CaAt(root, at) && t.m.cert.Some?
    requires t.at.Some? ==> At(root, t.at.value).Some? && At(root, t.at.value).value.cert == t.m.cert
    ensures CaAt(o.root, at)
    ensures o.result.Ok? && o.events == Emitted(f, at, "revoke")
    ensures IsRevoked(o.result.value) && o.result.value.cert.Some?
    ensures At(o.root, at).value.crl == None
    ensures t.at.Some? ==> At(o.root, t.at.value) == Some(o.result.value)
    ensures t.at.None? ==>
      && o.result.value == t.m.(isRevoked := Leaf(Bool(true)))
      && o.root == Put(root, at, At(root, at).value.(crl := None))
    ensures t.at.Some? ==> InTreeRevoked(root, at, t.at.value, o.root, o.result.value)
    ensures SameLedger(At(root, at).value, At(o.root, at).value)
  {
    match t.at
    case None =>
      var ca := At(root, at).value;
      AtWellFormed(root, at);
      PutWellFormed(root, at, ca.(crl := None));
      Outcome(Ok(t.m.(isRevoked := Leaf(Bool(true)))), Put(root, at, ca.(crl := None)), Emitted(f, at, "revoke"))
    case Some(b) => RevokeInTree(f, root, at, b)
  }

  /** The ledger fields of `a` and `b` agree. */
  predicate SameLedger(a: Member, b: Member) {
    a.crlnumber == b.crlnumber && a.serial == b.serial && a.database == b.database
  }

  /** `child.is_revoked = true; this.crl = null` for the member of the tree at `b`. */
  function RevokeInTree(f: Family, root: Member, at: Addr, b: Addr): (o: Outcome<Member>)
    requires CaAt(root, at) && At(root, b).Some? && At(root, b).value.cert.Some?
    ensures CaAt(o.root, at)
    ensures o.result.Ok? && o.events == Emitted(f, at, "revoke")
    ensures IsRevoked(o.result.value) && o.result.value.cert == At(root, b).value.cert
    ensures At(o.root, at).value.crl == None
    ensures InTreeRevoked(root, at, b, o.root, o.result.value)
    ensures SameLedger(At(root, at).value, At(o.root, at).value)
  {
    var c := At(root, b).value.(isRevoked := Leaf(Bool(true)));
    AtWellFormed(root, b);
    PutWellFormed(root, b, c);
    var root1 := Put(root, b, c);
    PutKeepsShape(root, b, c, at);
    var ca := At(root1, at).value;
    AtWellFormed(root1, at);
    PutWellFormed(root1, at, ca.(crl := None));
    var root2 := Put(root1, at, ca.(crl := None));
    PutSameFields(root1, at, ca.(crl := None), b);
    RevokePuts(root, at, b, c);
    Outcome(Ok(At(root2, b).value), root2, Emitted(f, at, "revoke"))
  }

  /** The two puts of a revocation in the tree: the member at `b` and then the CA at `at`, with its list dropped. */
  lemma RevokePuts(root: Member, at: Addr, b: Addr, c: Member)
    requires At(root, at).Some? && At(root, b).Some? && c.children == At(root, b).value.children
    ensures At(Put(root, b, c), at).Some?
    ensures var r := Put(Put(root, b, c), at, At(Put(root, b, c), at).value.(crl := None));
      && Frame(root, r, {at, b})
      && At(r, b).Some? && At(r, at).Some?
      && (b != at ==> Own(At(r, b).value) == Own(c) && Own(At(r, at).value) == Own(At(root, at).value).(crl := None))
      && (b == at ==> At(r, at) == Some(c.(crl := None)))
  {
    var root1 := Put(root, b, c);
    PutKeepsShape(root, b, c, at);
    var n := At(root1, at).value.(crl := None);
    var r := Put(root1, at, n);
    FramePut(root, b, c);
    FramePut(root1, at, n);
    FrameTrans(root, root1, r, {b}, {at});
    assert {b} + {at} == {at, b};
    if b != at {
      assert Own(At(root1, at).value) == Own(At(root, at).value);
      assert Own(At(r, b).value) == Own(At(root1, b).value);
    }
  }

  // ---------------------------------------------------------------------------
  // get_crl, get_crl_info
  // ---------------------------------------------------------------------------

  /** `openssl.inspect_crl(crl)`: the command's text, parsed. */
  function Inspect(crl: Bytes, env: Env): (r: Result<Dict<CrlOutput.Field>, Error>)
    ensures env.openssl.inspectCrl(crl).Err? ==> r == Err(BackendErr(env.openssl.inspectCrl(crl).error))
    ensures env.openssl.inspectCrl(crl).Ok? ==> r == CrlOutput.ParseCrlOutput(env.openssl.inspectCrl(crl).value)
  {
    match env.openssl.inspectCrl(crl)
    case Err(e) => Err(BackendErr(e))
    case Ok(text) => CrlOutput.ParseCrlOutput(text)
  }

  /**
    `now <= next_update` for the inspected list: a date compares by its
    time, an invalid date, a `NaN` or a missing field never holds. A
    `next_update` line that came through unconverted would be compared as a
    number parsed from text, which the model does not follow.
  */
  function NotExpired(info: Dict<CrlOutput.Field>, env: Env): (r: Result<bool, Error>)
    ensures Lookup(info, "next_update").None? ==> r == Ok(false)
    ensures (Lookup(info, "next_update").Some? && Lookup(info, "next_update").value.DateOf?) ==>
      var ms := env.parseDate(Lookup(info, "next_update").value.text);
      r == Ok(ms.Some? && env.now <= ms.value)
  {
    var next := Lookup(info, "next_update");
    if next.None? then Ok(false)
    else if next.value.DateOf? then
      var ms := env.parseDate(next.value.text);
      Ok(ms.Some? && env.now <= ms.value)
    else if next.value.HexNumber? then Ok(next.value.n.Some? && env.now <= next.value.n.value)
    else Err(Unmodelled("comparing the current time with a text"))
  }

  /** Whether the cached list may be answered again. */
  function StillValid(crl: Bytes, env: Env): Result<bool, Error> {
    var info :- Inspect(crl, env);
    NotExpired(info, env)
  }

  /**
    `get_crl({force} = {})`: a cached list that is not forced out and whose
    next update is still ahead is answered as it is, with no event;
    otherwise the CA's `openssl ca` run issues a new one, which is cached.
  */
  function GetCrl(f: Family, root: Member, at: Addr, options: Json, env: Env, code: Code): (o: Outcome<Bytes>)
    requires CaAt(root, at)
    ensures CaAt(o.root, at)
    ensures o.result.Err? ==> o.events == []
    ensures o.result.Ok? ==> At(o.root, at).value.crl == Some(o.result.value)
    ensures o.result.Ok? ==> (o.events == [] && o.root == root) || o.events == Emitted(f, at, "get-crl")
    ensures options == Leaf(Null) ==> o.result.Err? && o.result.error.TypeErr? && o.root == root
    ensures options != Leaf(Null) && (At(root, at).value.crl.None? || JsonTruthy(Read(options, "force"))) ==>
      o == IssueCrl(f, root, at, env, code)
    ensures (options != Leaf(Null) && At(root, at).value.crl.Some? && !JsonTruthy(Read(options, "force"))
             && StillValid(At(root, at).value.crl.value, env) == Ok(true)) ==>
      o == Outcome(Ok(At(root, at).value.crl.value), root, [])
  {
    if options == Leaf(Null) then Outcome(Err(TypeErr("cannot destructure the options: they are null")), root, [])
    else
      var ca := At(root, at).value;
      if ca.crl.Some? && !JsonTruthy(Read(options, "force")) then
        match StillValid(ca.crl.value, env)
        case Err(e) => Outcome(Err(e), root, [])
        case Ok(valid) => if valid then Outcome(Ok(ca.crl.value), root, []) else IssueCrl(f, root, at, env, code)
      else IssueCrl(f, root, at, env, code)
  }

  /**
    The `openssl ca` run of `get_crl`, with the empty extension name; the
    CA's certificate is read through the guard; an empty answer throws.
  */
  function IssueCrl(f: Family, root: Member, at: Addr, env: Env, code: Code): (o: Outcome<Bytes>)
    requires CaAt(root, at)
    ensures CaAt(o.root, at)
    ensures o.result.Err? ==> o.events == []
    ensures o.result.Ok? ==>
      && o.events == Emitted(f, at, "get-crl")
      && At(o.root, at).value.crl == Some(o.result.value)
      && !IsRevoked(At(root, at).value)
    ensures OnlyAtChanged(root, at, o.root)
    ensures SameButLedger(At(root, at).value.(crl := At(o.root, at).value.crl), At(o.root, at).value)
    ensures o.result.Ok? ==>
      var reply := CrlReply(f, At(root, at).value, env, code);
      && reply.Some? && reply.value.0 == Some(o.result.value)
      && LedgerIs(At(o.root, at).value, reply.value.1)
  {
    var ca := At(root, at).value;
    var p := Prepare(f, ca, env.paths, "", code);
    AtWellFormed(root, at);
    PutWellFormed(root, at, p.member);
    var root1 := Put(root, at, p.member);
    match p.result
    case Err(e) => Outcome(Err(e), root1, [])
    case Ok(prep) =>
      if IsRevoked(ca) then Outcome(Err(Revoked), root1, [])
      else
        match env.openssl.genCrl(RunOf(ca, prep))
        case Err(e) => Outcome(Err(BackendErr(e)), root1, [])
        case Ok(reply) =>
          assert CrlReply(f, ca, env, code) == Some(reply);
          var ca2 := ReadBack(p.member, reply.1);
          PutWellFormed(root, at, ca2);
          if reply.0.None? then Outcome(Err(Thrown("no crl returned; get_crl() probably failed")), Put(root, at, ca2), [])
          else
            PutWellFormed(root, at, ca2.(crl := reply.0));
            Outcome(Ok(reply.0.value), Put(root, at, ca2.(crl := reply.0)), Emitted(f, at, "get-crl"))
  }

  /**
    `get_crl_info()`: with no cached list, one is obtained first with
    `get_crl()`; the answer is the inspection of the list the CA then holds.
  */
  function GetCrlInfo(f: Family, root: Member, at: Addr, env: Env, code: Code): (o: Outcome<Dict<CrlOutput.Field>>)
    requires CaAt(root, at)
    ensures CaAt(o.root, at)
    ensures o.result.Ok? ==> At(o.root, at).value.crl.Some? && o.result == Inspect(At(o.root, at).value.crl.value, env)
    ensures At(root, at).value.crl.Some? ==> o == Outcome(Inspect(At(root, at).value.crl.value, env), root, [])
    ensures At(root, at).value.crl.None? ==>
      var g := IssueCrl(f, root, at, env, code);
      o.root == g.root && o.events == g.events && (g.result.Err? ==> o.result == Err(g.result.error))
  {
    var ca := At(root, at).value;
    if ca.crl.Some? then Outcome(Inspect(ca.crl.value, env), root, [])
    else
      var g := GetCrl(f, root, at, Leaf(Undefined), env, code);
      match g.result
      case Err(e) => Outcome(Err(e), g.root, g.events)
      case Ok(c) => Outcome(Inspect(c, env), g.root, g.events)
  }

  // ---------------------------------------------------------------------------
  // Properties
  // ---------------------------------------------------------------------------

  /**
    When only the member at `at` was replaced, by one with the same
    children, every member that is not `at` or an ancestor of it is as it
    was, and every ancestor keeps its own fields.
  */
  lemma OnlyAtChangedElsewhere(root: Member, at: Addr, r: Member, d: Addr)
    requires OnlyAtChanged(root, at, r)
    ensures !(|d| <= |at| && at[..|d|] == d) ==> At(r, d) == At(root, d)
    ensures |d| < |at| && at[..|d|] == d ==>
      At(r, d).Some? && At(root, d).Some? && Own(At(r, d).value) == Own(At(root, d).value)
  {
    var m := if r == root then At(root, at).value else At(r, at).value;
    if !(|d| <= |at| && at[..|d|] == d) {
      if r != root {
        PutSameChildren(root, at, m, d);
      }
    } else if |d| < |at| {
      PutKeepsAncestors(root, at, m, |d|);
    }
  }

  /**
    Signing a request of a member outside the tree (as `add_*` does) changes
    nothing in the tree but the CA's ledger fields.
  */
  lemma SignDetachedTouchesOnlyLedger(f: Family, root: Member, at: Addr, m: Member, options: Json, env: Env, code: Code, d: Addr)
    requires CaAt(root, at)
    ensures var o := SignCsrForChild(f, root, at, Detached(m), options, env, code);
      && (!(|d| <= |at| && at[..|d|] == d) ==> At(o.root, d) == At(root, d))
      && SameButLedger(At(root, at).value, At(o.root, at).value)
  {
    var o := SignCsrForChild(f, root, at, Detached(m), options, env, code);
    OnlyAtChangedElsewhere(root, at, o.root, d);
  }

  /**
    Issuing a revocation list changes nothing in the tree but the CA's
    ledger fields and its cached list.
  */
  lemma IssueCrlTouchesOnlyCa(f: Family, root: Member, at: Addr, env: Env, code: Code, d: Addr)
    requires CaAt(root, at)
    ensures var o := IssueCrl(f, root, at, env, code);
      !(|d| <= |at| && at[..|d|] == d) ==> At(o.root, d) == At(root, d)
  {
    OnlyAtChangedElsewhere(root, at, IssueCrl(f, root, at, env, code).root, d);
  }

  /**
    A failed `openssl ca` run is not followed by the read-back: the ledger
    fields keep the values the bracket reset them to.
  */
  lemma FailedRunKeepsResetLedger(f: Family, root: Member, at: Addr, env: Env, code: Code)
    requires CaAt(root, at) && !IsRevoked(At(root, at).value)
    requires var p := Prepare(f, At(root, at).value, env.paths, "", code);
      && p.result.Ok?
      && env.openssl.genCrl(RunOf(At(root, at).value, p.result.value)).Err?
    ensures var o := IssueCrl(f, root, at, env, code);
      var ca := At(root, at).value;
      && o.result.Err? && o.result.error.BackendErr? && o.events == []
      && LedgerReset(ca, At(o.root, at).value)
  {
  }

  /**
    A signing whose `openssl ca` command fails: the run fails with the
    backend's error, and, as for the list, the CA keeps the ledger fields
    the bracket reset; only such a failure is a backend error.
  */
  lemma FailedSignKeepsResetLedger(f: Family, root: Member, at: Addr, t: Target, days: Json, env: Env, code: Code)
    requires CaAt(root, at) && t.m.csr.Some?
    requires t.at.Some? ==> At(root, t.at.value) == Some(t.m)
    ensures var o := SignRun(f, root, at, t, days, env, code);
      var ca := At(root, at).value;
      var failed := Prepare(f, ca, env.paths, KindName(t.m.kind), code).result.Ok?
                    && SignReply(f, ca, t.m.kind, t.m.csr.value, days, env, code).None?;
      && (failed <==> o.result.Err? && o.result.error.BackendErr?)
      && (failed ==> o.events == [] && LedgerReset(ca, At(o.root, at).value))
  {
    var o := SignRun(f, root, at, t, days, env, code);
    var ca := At(root, at).value;
    var p := Prepare(f, ca, env.paths, KindName(t.m.kind), code);
    AtWellFormed(root, at);
    PutWellFormed(root, at, p.member);
    match p.result
    case Err(_) =>
    case Ok(prep) =>
      match env.openssl.signCsr(t.m.csr.value, RunOf(ca, prep), days)
      case Err(_) =>
        assert o.root == Put(root, at, p.member);
      case Ok(reply) =>
        assert SignReply(f, ca, t.m.kind, t.m.csr.value, days, env, code) == Some(reply);
        assert o == SignApply(f, root, at, t, p.member, prep.serial, reply);
  }

  /**
    A revocation whose `openssl ca` command fails: the run fails with the
    backend's error, and the CA keeps the ledger fields the bracket reset;
    only such a failure is a backend error.
  */
  lemma FailedRevokeKeepsResetLedger(f: Family, root: Member, at: Addr, t: Target, env: Env, code: Code)
    requires CaAt(root, at) && t.m.cert.Some? && !IsRevoked(t.m)
    requires t.at.Some? ==> At(root, t.at.value) == Some(t.m)
    ensures var o := RevokeRun(f, root, at, t, env, code);
      var ca := At(root, at).value;
      var failed := Prepare(f, ca, env.paths, KindName(t.m.kind), code).result.Ok? && !IsRevoked(ca)
                    && RevokeReply(f, ca, t.m.kind, t.m.cert.value, env, code).None?;
      && (failed <==> o.result.Err? && o.result.error.BackendErr?)
      && (failed ==> o.events == [] && LedgerReset(ca, At(o.root, at).value))
  {
    var o := RevokeRun(f, root, at, t, env, code);
    var ca := At(root, at).value;
    var p := Prepare(f, ca, env.paths, KindName(t.m.kind), code);
    AtWellFormed(root, at);
    PutWellFormed(root, at, p.member);
    match p.result
    case Err(_) =>
    case Ok(prep) =>
      if !IsRevoked(ca) {
        match env.openssl.revokeCert(t.m.cert.value, RunOf(ca, prep))
        case Err(_) =>
          assert o.root == Put(root, at, p.member);
        case Ok(l) =>
          assert RevokeReply(f, ca, t.m.kind, t.m.cert.value, env, code) == Some(l);
          assert o == RevokeApply(f, root, at, t, p.member, l);
      }
  }

  /**
    The ledger config of a signing, revocation or list: the `[my_ca]` entries
    name the temporary files, and an extension section is chosen exactly
    for a member kind (none for the list's empty name). The camel family as
    written is the exception, below.
  */
  lemma LedgerPathsInConfig(f: Family, paths: TempPaths, ext: string, code: Code)
    requires !(f == Camel && code == AsWritten)
    requires ext in {"", "ca", "server", "client"}
    ensures var b := CaOpsConf.BuildFromObject(OpsFields(f, paths, ext, code));
      && b.Ok?
      && var my := Lookup(b.value.sections, "my_ca");
      && my.Some?
      && Get(my.value, "serial") == Str(paths.serial)
      && Get(my.value, "crlnumber") == Str(paths.crlnumber)
      && Get(my.value, "database") == Str(paths.database)
      && Get(my.value, "new_certs_dir") == Str(paths.newCertsDir)
      && (HasKey(my.value, "x509_extensions") <==> ext != "")
      && (ext != "" ==> Get(my.value, "x509_extensions") == Str("v3_" + ext))
  {
    var fs := OpsFields(f, paths, ext, code);
    OpsFieldsRead(fs, paths, ext);
    NoKindIsPrototypeKey(ext);
    CaOpsConf.ObjectWithExt(fs);
  }

  lemma NoKindIsPrototypeKey(ext: string)
    requires ext in {"", "ca", "server", "client"}
    ensures !ObjectPrototypeKey(ext)
  {
  }

  lemma OpsFieldsRead(fs: Dict<Json>, paths: TempPaths, ext: string)
    requires fs == [("ext", Leaf(Str(ext)))] + [("serial", Leaf(Str(paths.serial))), ("crlnumber", Leaf(Str(paths.crlnumber))),
                   ("database", Leaf(Str(paths.database))), ("new_certs_dir", Leaf(Str(paths.newCertsDir)))]
    ensures HasKey(fs, "ext") && JsonGet(fs, "ext") == Leaf(Str(ext))
    ensures JsonGet(fs, "serial") == Leaf(Str(paths.serial))
    ensures JsonGet(fs, "crlnumber") == Leaf(Str(paths.crlnumber))
    ensures JsonGet(fs, "database") == Leaf(Str(paths.database))
    ensures JsonGet(fs, "new_certs_dir") == Leaf(Str(paths.newCertsDir))
    ensures JsonGet(fs, "default_md") == Leaf(Undefined)
  {
    FiveFieldsRead(fs, Leaf(Str(ext)), Leaf(Str(paths.serial)), Leaf(Str(paths.crlnumber)),
                   Leaf(Str(paths.database)), Leaf(Str(paths.newCertsDir)));
  }

  lemma FiveFieldsRead(fs: Dict<Json>, a: Json, b: Json, c: Json, d: Json, e: Json)
    requires fs == [("ext", a)] + [("serial", b), ("crlnumber", c), ("database", d), ("new_certs_dir", e)]
    ensures HasKey(fs, "ext") && JsonGet(fs, "ext") == a
    ensures JsonGet(fs, "serial") == b && JsonGet(fs, "crlnumber") == c
    ensures JsonGet(fs, "database") == d && JsonGet(fs, "new_certs_dir") == e
    ensures JsonGet(fs, "default_md") == Leaf(Undefined)
  {
    var ks := ["ext", "serial", "crlnumber", "database", "new_certs_dir"];
    var vs := [a, b, c, d, e];
    FieldsByLength(fs, ks, vs, "default_md");
    assert JsonGet(fs, ks[1]) == vs[1] && JsonGet(fs, ks[2]) == vs[2];
    assert JsonGet(fs, ks[3]) == vs[3] && JsonGet(fs, ks[4]) == vs[4];
  }

  /** Entries whose keys all differ in length are each found, and a key of yet another length is absent. */
  lemma FieldsByLength(fs: Dict<Json>, ks: seq<string>, vs: seq<Json>, absent: string)
    requires |ks| == |vs| == |fs|
    requires forall i :: 0 <= i < |fs| ==> fs[i] == (ks[i], vs[i])
    requires forall i, j :: 0 <= j < i < |ks| ==> |ks[j]| != |ks[i]|
    requires forall i :: 0 <= i < |ks| ==> |ks[i]| != |absent|
    ensures |fs| > 0 ==> HasKey(fs, ks[0])
    ensures forall i :: 0 <= i < |fs| ==> JsonGet(fs, ks[i]) == vs[i]
    ensures JsonGet(fs, absent) == Leaf(Undefined)
  {
    forall i | 0 <= i < |fs|
      ensures JsonGet(fs, ks[i]) == vs[i]
    {
      FieldRead(fs, i);
    }
    NoFieldOfLength(fs, absent);
  }

  /** No entry has a key of `k`'s length, so `k` is absent. */
  lemma NoFieldOfLength(fs: Dict<Json>, k: string)
    requires forall i :: 0 <= i < |fs| ==> |fs[i].0| != |k|
    ensures JsonGet(fs, k) == Leaf(Undefined)
  {
  }

  /** An entry whose key is longer or shorter than every earlier key is the one found. */
  lemma FieldRead(fs: Dict<Json>, i: nat)
    requires i < |fs|
    requires forall j :: 0 <= j < i ==> |fs[j].0| != |fs[i].0|
    ensures JsonGet(fs, fs[i].0) == fs[i].1
  {
    LookupFirst(fs, i);
  }

  /**
    The camel `#do_ca_operation` gives `for_ca_operations` an object without
    `ext`: the object is taken as the extension name, every `[my_ca]` ledger
    entry is undefined and no extension section is chosen.
  */
  lemma CamelLedgerPathsLost(paths: TempPaths, ext: string)
    ensures var b := CaOpsConf.BuildFromObject(OpsFields(Camel, paths, ext, AsWritten));
      && b.Ok?
      && var my := Lookup(b.value.sections, "my_ca");
      && my.Some?
      && Get(my.value, "serial") == Undefined && Get(my.value, "crlnumber") == Undefined
      && Get(my.value, "database") == Undefined && Get(my.value, "new_certs_dir") == Undefined
      && !HasKey(my.value, "x509_extensions")
  {
    var fs := OpsFields(Camel, paths, ext, AsWritten);
    assert forall j :: 0 <= j < |fs| ==> fs[j].0 != "ext";
    CaOpsConf.ObjectWithoutExt(fs);
  }

  /**
    Signing by a serial string: the corrected lookup finds the child whose
    key parses to that serial; as written, `get_child({serial: s})` finds
    nothing and the call throws a `TypeError` before anything changes.
  */
  lemma SignBySerialString(f: Family, root: Member, at: Addr, i: nat, options: Json, env: Env)
    requires CaAt(root, at) && options != Leaf(Null)
    requires var cs := At(root, at).value.children;
      && i < |cs| && ParseIntHex(cs[i].0).Some?
      && forall j :: 0 <= j < i ==> ParseIntHex(cs[j].0) != ParseIntHex(cs[i].0)
    ensures var cs := At(root, at).value.children;
      SignTarget(root, at, Search(Leaf(Str(cs[i].0))), Corrected) == Ok(ChildTarget(root, at, i))
    ensures var cs := At(root, at).value.children;
      var o := SignCsrForChild(f, root, at, Search(Leaf(Str(cs[i].0))), options, env, AsWritten);
      o.result.Err? && o.result.error.TypeErr? && o.root == root && o.events == []
  {
    var ca := At(root, at).value;
    var ref := Search(Leaf(Str(ca.children[i].0)));
    SerialFindsChild(ca, i);
    SearchTarget(root, at, ref.arg, Corrected, Some(i));
    SearchTarget(root, at, ref.arg, AsWritten, None);
  }

  /** What `SignTarget` makes of a text argument, given what the lookup found. */
  lemma SearchTarget(root: Member, at: Addr, arg: Json, code: Code, found: Option<nat>)
    requires CaAt(root, at) && IsText(arg)
    requires FindChild(code, At(root, at).value, Obj([("serial", arg)])) == Ok(found)
    ensures found.Some? ==> SignTarget(root, at, Search(arg), code) == Ok(ChildTarget(root, at, found.value))
    ensures found.None? ==> SignTarget(root, at, Search(arg), code).Err?
    ensures found.None? ==> SignTarget(root, at, Search(arg), code).error.TypeErr?
  {
  }

  /**
    The snake `add_client` as written passes the options where the client's
    `create_csr` expects the email, so its options are missing: every call
    throws a `TypeError` before a key, a request or a child is made.
  */
  lemma SnakeAddClientAsWrittenFails(root: Member, at: Addr, commonName: Json, options: Json, env: Env)
    requires CaAt(root, at)
    ensures var o := SnakeAdd(root, at, ClientKind, commonName, options, env, AsWritten);
      o.result.Err? && o.result.error.TypeErr? && o.root == root && o.events == []
  {
    match SnakeAddArgs(commonName, options)
    case Err(_) =>
    case Ok(a) =>
      var args := SnakeCsrArgs(ClientKind, a, AsWritten);
      assert Arg(args, 2) == Leaf(Undefined);
      assert SnakeCsrInput(ClientKind, args).Err?;
  }

  /**
    The corrected `add_client` hands the client's `create_csr` its options in
    the third place: the request is planned from the caller's key
    arguments, and an email given in `conf_args` is the one used.
  */
  lemma SnakeAddClientCorrected(a: AddArgs)
    requires a.confArgs.Obj? && WellFormed(a.confArgs.fields) && !HasKey(a.confArgs.fields, "__proto__")
    ensures var r := SnakeCsrInput(ClientKind, SnakeCsrArgs(ClientKind, a, Corrected));
      && r.Ok?
      && r.value.keys == KeySpecOf(OrDefault(a.keyArgs, Obj([])))
      && r.value.arg.Obj?
      && (HasKey(a.confArgs.fields, "email") ==> Lookup(r.value.arg.fields, "email") == Lookup(a.confArgs.fields, "email"))
  {
    var args := SnakeCsrArgs(ClientKind, a, Corrected);
    var opts := Obj([("key_args", a.keyArgs), ("conf_args", a.confArgs)]);
    assert Arg(args, 2) == opts;
    assert Read(opts, "key_args") == a.keyArgs by { LookupFirst(opts.fields, 0); }
    assert Read(opts, "conf_args") == a.confArgs by { LookupFirst(opts.fields, 1); }
    var fs := a.confArgs.fields;
    var emailOnly := [("email", Arg(args, 1))];
    AssignLookup(emailOnly, fs, "__proto__");
    AssignLookup(emailOnly, fs, "email");
    var conf := Assign(emailOnly, a.confArgs).value;
    assert conf == Merge(emailOnly, fs);
    MergeWellFormed(emailOnly, fs);
    assert HasKey(conf, "email") && !HasKey(conf, "__proto__");
    var cnOnly := [("common_name", Arg(args, 0))];
    AssignLookup(cnOnly, conf, "email");
  }

  /** A revoked member cannot be revoked again: the second call throws at the certificate read and changes nothing. */
  lemma RevokeTwice(f: Family, root: Member, at: Addr, b: Addr, env1: Env, env2: Env, code: Code)
    requires CaAt(root, at) && At(root, b).Some?
    requires Revoke(f, root, at, InTree(b), env1, code).result.Ok?
    ensures var o := Revoke(f, root, at, InTree(b), env1, code);
      At(o.root, b).Some? && Revoke(f, o.root, at, InTree(b), env2, code) == Outcome(Err(Revoked), o.root, [])
  {
  }

  /** After a revocation the next `get_crl` issues a new list, forced or not: the cached one was dropped. */
  lemma RevokeThenFreshCrl(f: Family, root: Member, at: Addr, ref: ChildRef, options: Json, env1: Env, env2: Env, code: Code)
    requires CaAt(root, at) && RefValid(root, ref) && options != Leaf(Null)
    requires Revoke(f, root, at, ref, env1, code).result.Ok?
    ensures var o := Revoke(f, root, at, ref, env1, code);
      GetCrl(f, o.root, at, options, env2, code) == IssueCrl(f, o.root, at, env2, code)
  {
  }

  /**
    A list just issued is answered from the cache by the next unforced
    `get_crl`, as long as its next update is still ahead.
  */
  lemma IssuedCrlIsCached(f: Family, root: Member, at: Addr, options1: Json, options2: Json, env1: Env, env2: Env, code: Code)
    requires CaAt(root, at) && options2 != Leaf(Null) && !JsonTruthy(Read(options2, "force"))
    requires GetCrl(f, root, at, options1, env1, code).result.Ok?
    requires StillValid(GetCrl(f, root, at, options1, env1, code).result.value, env2) == Ok(true)
    ensures var o := GetCrl(f, root, at, options1, env1, code);
      GetCrl(f, o.root, at, options2, env2, code) == Outcome(Ok(o.result.value), o.root, [])
  {
  }
}
