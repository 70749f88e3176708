/**
  The members of a PKI (lib/pki/child.js, ca.js, server.js, client.js and
  their camel-case twins pki-member.js, pki-ca.js, pki-server.js,
  pki-client.js) as one tree value.

  A CA's `children` object maps serial numbers to members, and every member's
  `parent` is the CA holding it. The model keeps the children and derives the
  parent: a member is named by its address, the serials from the root down to
  it, and its parent is the member at the address one serial shorter.
*/
module Members {
  import opened Wrappers
  import opened JsObject
  import opened Errors
  import opened Text
  import opened Backend

  /** The two class families: `Child`, `CA`, ... with snake-case fields, and `PkiChild`, `PkiCA`, ... with camel-case ones. */
  datatype Family = Snake | Camel

  /** Which reading of a line the source gets wrong: the code as it stands, or as it was evidently meant. */
  datatype Code = AsWritten | Corrected

  datatype Kind = CaKind | ServerKind | ClientKind

  /** The `type` a record carries, which is also the `ext` a CA signs the member's certificate with. */
  function KindName(k: Kind): (s: string)
    ensures s in {"ca", "server", "client"}
  {
    match k
    case CaKind => "ca"
    case ServerKind => "server"
    case ClientKind => "client"
  }

  /**
    One member. The last five fields belong to a CA only (a server or client
    keeps them at `Fresh`'s values). Key material is `None` where the source
    holds `null`.
  */
  datatype Member = Member(
    kind: Kind,
    name: Json,
    subject: Json,
    cert: Option<Bytes>,
    privateKey: Option<Bytes>,
    publicKey: Option<Bytes>,
    privateKeyPassword: Json,
    csr: Option<Bytes>,
    isRevoked: Json,
    database: Json,
    serial: Json,
    crlnumber: Json,
    crl: Option<Bytes>,
    children: Dict<Member>)

  /** `new Server()`, `new Client()`, `new CA()`: every field `null` and no children. */
  function Fresh(kind: Kind): Member {
    Member(kind, Leaf(Null), Leaf(Null), None, None, None, Leaf(Null), None, Leaf(Null),
           Leaf(Null), Leaf(Null), Leaf(Null), None, [])
  }

  /** The serials from the root down to a member. */
  type Addr = seq<string>

  // ---------------------------------------------------------------------------
  // Revocation-guarded accessors
  // ---------------------------------------------------------------------------

  predicate IsRevoked(m: Member) {
    JsonTruthy(m.isRevoked)
  }

  /** The `cert` getter: a revoked member throws instead of answering. */
  function GetCert(m: Member): (r: Result<Option<Bytes>, Error>)
    ensures r.Ok? <==> !IsRevoked(m)
    ensures r.Ok? ==> r.value == m.cert
    ensures r.Err? ==> r.error == Revoked
  {
    if IsRevoked(m) then Err(Revoked) else Ok(m.cert)
  }

  /** The `private_key` (`privateKey`) getter. */
  function GetPrivateKey(m: Member): (r: Result<Option<Bytes>, Error>)
    ensures r.Ok? <==> !IsRevoked(m)
    ensures r.Ok? ==> r.value == m.privateKey
    ensures r.Err? ==> r.error == Revoked
  {
    if IsRevoked(m) then Err(Revoked) else Ok(m.privateKey)
  }

  /** The `public_key` (`publicKey`) getter. */
  function GetPublicKey(m: Member): (r: Result<Option<Bytes>, Error>)
    ensures r.Ok? <==> !IsRevoked(m)
    ensures r.Ok? ==> r.value == m.publicKey
    ensures r.Err? ==> r.error == Revoked
  {
    if IsRevoked(m) then Err(Revoked) else Ok(m.publicKey)
  }

  /** The `cert` setter, guarded like the getter; nothing else of the member changes. */
  function SetCert(m: Member, c: Option<Bytes>): (r: Result<Member, Error>)
    ensures r.Ok? <==> !IsRevoked(m)
    ensures r.Ok? ==> r.value.cert == c && r.value.(cert := m.cert) == m
    ensures r.Err? ==> r.error == Revoked
  {
    if IsRevoked(m) then Err(Revoked) else Ok(m.(cert := c))
  }

  // ---------------------------------------------------------------------------
  // The tree
  // ---------------------------------------------------------------------------

  /** The member at an address: follow each serial through the `children` object. */
  function At(root: Member, a: Addr): Option<Member>
    decreases |a|
  {
    if |a| == 0 then Some(root)
    else
      match Lookup(root.children, a[0])
      case None => None
      case Some(c) => At(c, a[1..])
  }

  /** Walking to `a + b` is walking to `a` and then to `b`. */
  lemma {:induction false} AtAppend(root: Member, a: Addr, b: Addr)
    ensures At(root, a + b) == (if At(root, a).Some? then At(At(root, a).value, b) else None)
    decreases |a|
  {
    if |a| == 0 {
      assert a + b == b;
    } else {
      assert (a + b)[0] == a[0];
      assert (a + b)[1..] == a[1..] + b;
      match Lookup(root.children, a[0])
      case None =>
      case Some(c) => AtAppend(c, a[1..], b);
    }
  }

  /** Every ancestor of a member is a member too. */
  lemma AtPrefix(root: Member, a: Addr, j: nat)
    requires At(root, a).Some? && j <= |a|
    ensures At(root, a[..j]).Some?
  {
    AtAppend(root, a[..j], a[j..]);
    assert a[..j] + a[j..] == a;
  }

  /** A child of the member at `a` is at `a + [k]`. */
  lemma AtChild(root: Member, a: Addr, k: string)
    requires At(root, a).Some?
    ensures At(root, a + [k]) == Lookup(At(root, a).value.children, k)
  {
    AtAppend(root, a, [k]);
    assert [k][1..] == [];
  }

  /** Replacing the value of a present key is what a later read of that key sees. */
  lemma {:induction false} ReplaceRead<V>(d: Dict<V>, k: string, v: V)
    requires HasKey(d, k)
    ensures Lookup(Replace(d, k, v), k) == Some(v)
    ensures HasKey(Replace(d, k, v), k)
    decreases |d|
  {
    if d[0].0 != k {
      var j :| 0 <= j < |d| && d[j].0 == k;
      assert d[1..][j - 1].0 == k;
      ReplaceRead(d[1..], k, v);
      var r := Replace(d, k, v);
      assert r[1..] == Replace(d[1..], k, v);
    }
  }

  /** The tree with the member at `a` replaced by `m`; the path to it keeps its serials. */
  function Put(root: Member, a: Addr, m: Member): (r: Member)
    requires At(root, a).Some?
    ensures At(r, a) == Some(m)
    decreases |a|
  {
    if |a| == 0 then m
    else
      var c := Lookup(root.children, a[0]).value;
      var c' := Put(c, a[1..], m);
      ReplaceRead(root.children, a[0], c');
      root.(children := Replace(root.children, a[0], c'))
  }

  /** Children objects are well formed at every level. */
  predicate TreeWellFormed(m: Member)
    decreases m
  {
    && WellFormed(m.children)
    && forall i :: 0 <= i < |m.children| ==> TreeWellFormed(m.children[i].1)
  }

  /** Replacing one key's value leaves every other key's value alone. */
  lemma {:induction false} ReplaceOther<V>(d: Dict<V>, k: string, v: V, k': string)
    requires k' != k
    ensures Lookup(Replace(d, k, v), k') == Lookup(d, k')
    decreases |d|
  {
    if |d| > 0 && d[0].0 != k {
      ReplaceOther(d[1..], k, v, k');
      var r := Replace(d, k, v);
      assert r[1..] == Replace(d[1..], k, v);
    }
  }

  /** Replacing a key's value twice is replacing it once with the second value. */
  lemma {:induction false} ReplaceTwice<V>(d: Dict<V>, k: string, v: V, w: V)
    ensures Replace(Replace(d, k, v), k, w) == Replace(d, k, w)
    decreases |d|
  {
    if |d| > 0 && d[0].0 != k {
      ReplaceTwice(d[1..], k, v, w);
      var r := Replace(d, k, v);
      assert r[1..] == Replace(d[1..], k, v);
    }
  }

  /** A second put at the same address overrides the first. */
  lemma {:induction false} PutTwice(root: Member, a: Addr, m: Member, n: Member)
    requires At(root, a).Some?
    ensures Put(Put(root, a, m), a, n) == Put(root, a, n)
    decreases |a|
  {
    if |a| > 0 {
      var c := Lookup(root.children, a[0]).value;
      var c' := Put(c, a[1..], m);
      ReplaceRead(root.children, a[0], c');
      PutTwice(c, a[1..], m, n);
      ReplaceTwice(root.children, a[0], c', Put(c, a[1..], n));
    }
  }

  /**
    Putting a member that keeps the children of the one it replaces changes
    no address: whatever was a member is still one, and nothing new is.
  */
  lemma {:induction false} PutKeepsShape(root: Member, a: Addr, m: Member, b: Addr)
    requires At(root, a).Some? && m.children == At(root, a).value.children
    ensures At(Put(root, a, m), b).Some? <==> At(root, b).Some?
    decreases |a|
  {
    if |b| > 0 {
      if |a| == 0 {
        assert At(m, b) == At(root, b);
      } else {
        var c := Lookup(root.children, a[0]).value;
        var c' := Put(c, a[1..], m);
        var r := Put(root, a, m);
        assert r.children == Replace(root.children, a[0], c');
        if b[0] == a[0] {
          ReplaceRead(root.children, a[0], c');
          PutKeepsShape(c, a[1..], m, b[1..]);
        } else {
          ReplaceOther(root.children, a[0], c', b[0]);
        }
      }
    }
  }

  /**
    A put at `a` leaves alone every member whose address parts from `a` at
    some position `j`: nothing outside the path to `a` and the subtree at `a`
    changes.
  */
  lemma {:induction false} PutElsewhere(root: Member, a: Addr, m: Member, b: Addr, j: nat)
    requires At(root, a).Some?
    requires j < |a| && j < |b| && a[..j] == b[..j] && a[j] != b[j]
    ensures At(Put(root, a, m), b) == At(root, b)
    decreases j
  {
    if j == 0 {
      PutOtherChild(root, a, m, b);
    } else {
      assert a[0] == b[0] by {
        assert a[..j][0] == a[0] && b[..j][0] == b[0];
      }
      assert a[1..][..j - 1] == b[1..][..j - 1] by {
        assert a[1..][..j - 1] == a[..j][1..] && b[1..][..j - 1] == b[..j][1..];
      }
      PutSameChild(root, a, m, b);
      PutElsewhere(Lookup(root.children, a[0]).value, a[1..], m, b[1..], j - 1);
    }
  }

  /** A put below one child leaves the subtree of another child alone. */
  lemma PutOtherChild(root: Member, a: Addr, m: Member, b: Addr)
    requires At(root, a).Some? && |a| > 0 && |b| > 0 && a[0] != b[0]
    ensures At(Put(root, a, m), b) == At(root, b)
  {
    var c' := Put(Lookup(root.children, a[0]).value, a[1..], m);
    var r := Put(root, a, m);
    assert r.children == Replace(root.children, a[0], c');
    ReplaceOther(root.children, a[0], c', b[0]);
    assert Lookup(r.children, b[0]) == Lookup(root.children, b[0]);
  }

  /** Below the child a put goes through, the tree is that child's tree with the put made in it. */
  lemma PutSameChild(root: Member, a: Addr, m: Member, b: Addr)
    requires At(root, a).Some? && |a| > 0 && |b| > 0 && a[0] == b[0]
    ensures Lookup(root.children, a[0]).Some?
    ensures At(Put(root, a, m), b) == At(Put(Lookup(root.children, a[0]).value, a[1..], m), b[1..])
    ensures At(root, b) == At(Lookup(root.children, a[0]).value, b[1..])
  {
    var c' := Put(Lookup(root.children, a[0]).value, a[1..], m);
    var r := Put(root, a, m);
    assert r.children == Replace(root.children, a[0], c');
    ReplaceRead(root.children, a[0], c');
  }

  /**
    Putting a member that keeps the children of the one it replaces leaves
    every address that is not on the path to `a` as it was, including the
    whole subtree below `a`.
  */
  lemma {:induction false} PutSameChildren(root: Member, a: Addr, m: Member, b: Addr)
    requires At(root, a).Some? && m.children == At(root, a).value.children
    requires !(|b| <= |a| && a[..|b|] == b)
    ensures At(Put(root, a, m), b) == At(root, b)
    decreases |a|
  {
    if |a| == 0 {
      assert At(m, b) == At(root, b);
    } else {
      var c := Lookup(root.children, a[0]).value;
      var c' := Put(c, a[1..], m);
      var r := Put(root, a, m);
      assert r.children == Replace(root.children, a[0], c');
      if b[0] == a[0] {
        ReplaceRead(root.children, a[0], c');
        PrefixCons(a, b);
        PutSameChildren(c, a[1..], m, b[1..]);
      } else {
        ReplaceOther(root.children, a[0], c', b[0]);
      }
    }
  }

  /** A prefix of `a[1..]` extended by `a[0]` is a prefix of `a`. */
  lemma PrefixCons(a: Addr, b: Addr)
    requires |a| > 0 && |b| > 0 && b[0] == a[0]
    ensures |b[1..]| <= |a[1..]| && a[1..][..|b[1..]|] == b[1..] ==> |b| <= |a| && a[..|b|] == b
  {
    if |b[1..]| <= |a[1..]| && a[1..][..|b[1..]|] == b[1..] {
      assert a[..|b|] == [a[0]] + a[1..][..|b[1..]|];
      assert b == [b[0]] + b[1..];
    }
  }

  /** A member with its children left out: what a put below it never changes. */
  function Own(m: Member): Member {
    m.(children := [])
  }

  /** A put at `a` changes nothing of an ancestor of `a` but its children. */
  lemma {:induction false} PutKeepsAncestors(root: Member, a: Addr, m: Member, j: nat)
    requires At(root, a).Some? && j < |a|
    ensures At(Put(root, a, m), a[..j]).Some? && At(root, a[..j]).Some?
    ensures Own(At(Put(root, a, m), a[..j]).value) == Own(At(root, a[..j]).value)
    decreases j
  {
    if j == 0 {
      assert a[..0] == [];
    } else {
      var c := Lookup(root.children, a[0]).value;
      var p := a[..j];
      assert p[0] == a[0] && p[1..] == a[1..][..j - 1];
      PutDescends(root, a, m, p);
      PutKeepsAncestors(c, a[1..], m, j - 1);
    }
  }

  /** Below the first step of a put, walking the new tree is walking the new child. */
  lemma PutDescends(root: Member, a: Addr, m: Member, p: Addr)
    requires At(root, a).Some? && |a| > 0 && |p| > 0 && p[0] == a[0]
    ensures var c := Lookup(root.children, a[0]).value;
      && At(c, a[1..]).Some?
      && At(Put(root, a, m), p) == At(Put(c, a[1..], m), p[1..])
      && At(root, p) == At(c, p[1..])
  {
    var c := Lookup(root.children, a[0]).value;
    ReplaceRead(root.children, a[0], Put(c, a[1..], m));
  }

  /** Neither address is on the other's path from the root: the two members sit in different branches. */
  predicate Apart(a: Addr, b: Addr) {
    !(|a| <= |b| && b[..|a|] == a) && !(|b| <= |a| && a[..|b|] == b)
  }

  /** A put at `a`, whatever it puts, leaves every member in another branch as it was. */
  lemma PutApart(root: Member, a: Addr, m: Member, b: Addr)
    requires At(root, a).Some? && Apart(a, b)
    ensures At(Put(root, a, m), b) == At(root, b)
  {
    var j := 0;
    while j < |a| && j < |b| && a[j] == b[j]
      invariant j <= |a| && j <= |b| && a[..j] == b[..j]
    {
      assert a[..j + 1] == a[..j] + [a[j]] && b[..j + 1] == b[..j] + [b[j]];
      j := j + 1;
    }
    assert a[..|a|] == a && b[..|b|] == b;
    PutElsewhere(root, a, m, b, j);
  }

  /**
    `r` has a member exactly where `root` has one, and every member whose
    address is not in `touched` keeps its own fields: going from `root` to
    `r` changed the members in `touched` and no other.
  */
  ghost predicate Frame(root: Member, r: Member, touched: set<Addr>) {
    && (forall d :: At(r, d).Some? <==> At(root, d).Some?)
    && (forall d :: d !in touched && At(root, d).Some? ==> Own(At(r, d).value) == Own(At(root, d).value))
  }

  /** A put that keeps the children changes the member put and no other. */
  lemma FramePut(root: Member, a: Addr, m: Member)
    requires At(root, a).Some? && m.children == At(root, a).value.children
    ensures Frame(root, Put(root, a, m), {a})
  {
    var r := Put(root, a, m);
    forall d
      ensures At(r, d).Some? <==> At(root, d).Some?
      ensures d !in {a} && At(root, d).Some? ==> Own(At(r, d).value) == Own(At(root, d).value)
    {
      PutKeepsOwn(root, a, m, d);
    }
  }

  lemma PutKeepsOwn(root: Member, a: Addr, m: Member, d: Addr)
    requires At(root, a).Some? && m.children == At(root, a).value.children
    ensures At(Put(root, a, m), d).Some? <==> At(root, d).Some?
    ensures d != a && At(root, d).Some? ==> Own(At(Put(root, a, m), d).value) == Own(At(root, d).value)
  {
    PutKeepsShape(root, a, m, d);
    if d != a && At(root, d).Some? {
      if |d| <= |a| && a[..|d|] == d {
        assert |d| < |a|;
        PutKeepsAncestors(root, a, m, |d|);
      } else {
        PutSameChildren(root, a, m, d);
      }
    }
  }

  /** Changes compose: what two steps change is what either changed. */
  lemma FrameTrans(x: Member, y: Member, z: Member, s: set<Addr>, t: set<Addr>)
    requires Frame(x, y, s) && Frame(y, z, t)
    ensures Frame(x, z, s + t)
  {
    forall d | d !in s + t && At(x, d).Some?
      ensures Own(At(z, d).value) == Own(At(x, d).value)
    {
      assert At(y, d).Some?;
    }
  }

  /** Every ancestor of `a` keeps its own fields from `root` to `r`. */
  predicate AncestorsKept(root: Member, r: Member, a: Addr) {
    forall j :: 0 <= j < |a| ==>
      At(r, a[..j]).Some? && At(root, a[..j]).Some? && Own(At(r, a[..j]).value) == Own(At(root, a[..j]).value)
  }

  /** Every member in another branch than `a` is, with all below it, as it was. */
  ghost predicate OtherBranchesKept(root: Member, r: Member, a: Addr) {
    forall d :: Apart(d, a) ==> At(r, d) == At(root, d)
  }

  /** Keeping other branches and ancestors composes. */
  lemma KeptTrans(x: Member, y: Member, z: Member, a: Addr)
    requires OtherBranchesKept(x, y, a) && AncestorsKept(x, y, a)
    requires OtherBranchesKept(y, z, a) && AncestorsKept(y, z, a)
    ensures OtherBranchesKept(x, z, a) && AncestorsKept(x, z, a)
  {
  }

  /** A put at `a`, whatever it puts, changes nothing in another branch and no ancestor's own fields. */
  lemma PutOffPath(root: Member, a: Addr, m: Member)
    requires At(root, a).Some?
    ensures OtherBranchesKept(root, Put(root, a, m), a)
    ensures AncestorsKept(root, Put(root, a, m), a)
  {
    forall d | Apart(d, a)
      ensures At(Put(root, a, m), d) == At(root, d)
    {
      PutApart(root, a, m, d);
    }
    forall j | 0 <= j < |a|
      ensures At(Put(root, a, m), a[..j]).Some? && At(root, a[..j]).Some?
      ensures Own(At(Put(root, a, m), a[..j]).value) == Own(At(root, a[..j]).value)
    {
      PutKeepsAncestors(root, a, m, j);
    }
  }

  /** The member at a well-formed tree's address is itself a well-formed tree. */
  lemma {:induction false} AtWellFormed(root: Member, a: Addr)
    requires TreeWellFormed(root) && At(root, a).Some?
    ensures TreeWellFormed(At(root, a).value)
    decreases |a|
  {
    if |a| > 0 {
      var c := Lookup(root.children, a[0]).value;
      var i :| 0 <= i < |root.children| && root.children[i] == (a[0], c);
      AtWellFormed(c, a[1..]);
    }
  }

  /** Putting a well-formed member into a well-formed tree keeps the tree well formed. */
  lemma {:induction false} PutWellFormed(root: Member, a: Addr, m: Member)
    requires TreeWellFormed(root) && At(root, a).Some? && TreeWellFormed(m)
    ensures TreeWellFormed(Put(root, a, m))
    decreases |a|
  {
    if |a| > 0 {
      var d := root.children;
      var c := Lookup(d, a[0]).value;
      var i :| 0 <= i < |d| && d[i] == (a[0], c);
      PutWellFormed(c, a[1..], m);
      var c' := Put(c, a[1..], m);
      ReplaceWellFormed(d, a[0], c');
      ReplaceSpec(d, a[0], c');
      var r := Replace(d, a[0], c');
      forall j | 0 <= j < |r| ensures TreeWellFormed(r[j].1) {
        if d[j].0 == a[0] {
          assert j == i;
        }
      }
    }
  }

  // ---------------------------------------------------------------------------
  // path (snake family only)
  // ---------------------------------------------------------------------------

  /**
    The `path` getter: "/" for a root, otherwise "/" followed by the serials
    from the root down, joined by "/". The source memoises it per member on
    first read. No operation of this model reads `path` before the member is
    stored under its CA (`AddSigned` stores a member signed while detached,
    and only then can its path be asked for), so the memo and the recomputed
    value agree.
  */
  function Path(a: Addr): (p: string)
    ensures |p| > 0 && p[0] == '/'
  {
    if |a| == 0 then "/" else "/" + Join(a, "/")
  }

  /** Splitting a path at "/" gives the serials back when none is empty or holds a "/": the path names the member. */
  lemma PathNamesMember(root: Member, a: Addr)
    requires |a| > 0
    requires forall i :: 0 <= i < |a| ==> '/' !in a[i]
    ensures Split(Path(a)[1..], '/') == a
    ensures At(root, Split(Path(a)[1..], '/')) == At(root, a)
  {
    assert Path(a)[1..] == Join(a, ['/']);
    SplitJoin(a, '/');
  }

  // ---------------------------------------------------------------------------
  // cert_chain
  // ---------------------------------------------------------------------------

  /** A member whose certificate the chain can read: not revoked and holding one. */
  predicate ChainLink(m: Member) {
    !IsRevoked(m) && m.cert.Some?
  }

  /**
    The `cert_chain` getter: the member's certificate followed by each
    ancestor's up to the root. The first member on the way up that is revoked
    throws the revocation; the first one without a certificate throws.
  */
  function CertChain(root: Member, a: Addr): (r: Result<Bytes, Error>)
    requires At(root, a).Some?
    ensures r.Ok? <==> forall j :: 0 <= j <= |a| ==> At(root, a[..j]).Some? && ChainLink(At(root, a[..j]).value)
    ensures r.Ok? ==> At(root, a).value.cert.value <= r.value
    ensures r.Ok? ==> |root.cert.value| <= |r.value| && r.value[|r.value| - |root.cert.value|..] == root.cert.value
    ensures r.Err? ==> r.error == Revoked || r.error.Thrown?
    decreases |a|
  {
    assert a[..|a|] == a;
    assert a[..0] == [];
    var m := At(root, a).value;
    var c :- GetCert(m);
    if c.None? then Err(Thrown("node has no cert"))
    else if |a| == 0 then Ok(c.value)
    else
      var up := a[..|a| - 1];
      AtPrefix(root, a, |a| - 1);
      assert forall j :: 0 <= j <= |up| ==> up[..j] == a[..j];
      var rest :- CertChain(root, up);
      Ok(c.value + rest)
  }

  /** The addresses from `a` up to the root, the member's own first. */
  function Ancestry(a: Addr): (ps: seq<Addr>)
    ensures |ps| == |a| + 1
    ensures forall j :: 0 <= j <= |a| ==> ps[j] == a[..|a| - j]
  {
    seq(|a| + 1, j requires 0 <= j <= |a| => a[..|a| - j])
  }

  /** The certificate at an address, or nothing. */
  function CertAt(root: Member, p: Addr): Bytes {
    if At(root, p).Some? && At(root, p).value.cert.Some? then At(root, p).value.cert.value else []
  }

  function Concat(bs: seq<Bytes>): Bytes {
    if |bs| == 0 then [] else bs[0] + Concat(bs[1..])
  }

  /** The chain is the certificates of the member and its ancestors, concatenated in that order. */
  lemma {:induction false} CertChainConcat(root: Member, a: Addr)
    requires At(root, a).Some? && CertChain(root, a).Ok?
    ensures CertChain(root, a).value == Concat(seq(|a| + 1, j requires 0 <= j <= |a| => CertAt(root, Ancestry(a)[j])))
    decreases |a|
  {
    var cs := seq(|a| + 1, j requires 0 <= j <= |a| => CertAt(root, Ancestry(a)[j]));
    assert a[..|a|] == a;
    assert cs[0] == CertAt(root, a);
    if |a| == 0 {
      assert cs == [CertAt(root, a)];
      assert Concat(cs[1..]) == [];
    } else {
      var up := a[..|a| - 1];
      AtPrefix(root, a, |a| - 1);
      assert forall j :: 0 <= j <= |up| ==> up[..j] == a[..j];
      CertChainConcat(root, up);
      var us := seq(|up| + 1, j requires 0 <= j <= |up| => CertAt(root, Ancestry(up)[j]));
      assert cs[1..] == us by {
        forall j | 0 <= j < |us|
          ensures cs[1..][j] == us[j]
        {
          assert up[..|up| - j] == a[..|a| - (j + 1)];
        }
      }
    }
  }

  // ---------------------------------------------------------------------------
  // get_pkcs12
  // ---------------------------------------------------------------------------

  /**
    `get_pkcs12(export_password, {legacy} = {})`: destructuring `null`
    options throws; then the certificate and the private key are read through
    their guarded getters, and both must be there.
  */
  function GetPkcs12(m: Member, exportPassword: Json, options: Json, ossl: Openssl): (r: Result<Bytes, Error>)
    ensures options == Leaf(Null) ==> r.Err? && r.error.TypeErr?
    ensures options != Leaf(Null) && IsRevoked(m) ==> r == Err(Revoked)
    ensures options != Leaf(Null) && !IsRevoked(m) && (m.cert.None? || m.privateKey.None?) ==> r.Err? && r.error.Thrown?
    ensures r.Ok? ==> (!IsRevoked(m) && m.cert.Some? && m.privateKey.Some?
      && ossl.exportPkcs12(m.cert.value, m.privateKey.value, exportPassword, Legacy(options))
         == Ok(r.value))
    ensures options != Leaf(Null) && !IsRevoked(m) && m.cert.Some? && m.privateKey.Some? ==>
      var answer := ossl.exportPkcs12(m.cert.value, m.privateKey.value, exportPassword, Legacy(options));
      (r.Ok? <==> answer.Ok?) && (answer.Err? ==> r == Err(BackendErr(answer.error)))
  {
    // the `cert` getter throws for a revoked member, so the `private_key` getter after it cannot
    if options == Leaf(Null) then Err(TypeErr("cannot destructure null"))
    else if IsRevoked(m) then Err(Revoked)
    else if m.cert.None? || m.privateKey.None? then Err(Thrown("both cert and private_key must be set"))
    else
      match ossl.exportPkcs12(m.cert.value, m.privateKey.value, exportPassword, Legacy(options))
      case Ok(p12) => Ok(p12)
      case Err(e) => Err(BackendErr(e))
  }

  /** `!!legacy` of the options object. */
  predicate Legacy(options: Json) {
    options.Obj? && JsonTruthy(JsonGet(options.fields, "legacy"))
  }
}
