/**
  `toJSON` and `fromJSON` of the member classes: a member becomes a plain
  object whose key material is written as `"base64:"` text, and a CA's
  record nests its children's records under their serials.

  The two families write the same record under different key names:
  `private_key`, `public_key`, `private_key_password`, `is_revoked` (snake)
  and `privateKey`, `publicKey`, `privateKeyPassword`, `isRevoked` (camel).
*/
module Records {
  import opened Wrappers
  import opened JsObject
  import opened Errors
  import opened Text
  import opened Members
  import Base64
  import Utf8
  import CaOpsConf

  function PrivateKeyKey(f: Family): string {
    if f == Snake then "private_key" else "privateKey"
  }

  function PublicKeyKey(f: Family): string {
    if f == Snake then "public_key" else "publicKey"
  }

  function PasswordKey(f: Family): string {
    if f == Snake then "private_key_password" else "privateKeyPassword"
  }

  function RevokedKey(f: Family): string {
    if f == Snake then "is_revoked" else "isRevoked"
  }

  // ---------------------------------------------------------------------------
  // toJSON
  // ---------------------------------------------------------------------------

  /** A key-material field: `"base64:"` and the bytes in base64, or `null`. */
  function BufferField(b: Option<Bytes>): Json {
    if b.Some? then Leaf(Str("base64:" + Base64.Encode(b.value))) else Leaf(Null)
  }

  /** The keys of a record, in the order `toJSON` writes them. */
  function RecordKeys(f: Family, k: Kind): seq<string> {
    ["name", "subject", "type", "cert", PrivateKeyKey(f), PublicKeyKey(f), PasswordKey(f), "csr", RevokedKey(f)]
    + (if k == CaKind then ["database", "serial", "crl", "crlnumber", "children"] else [])
  }

  /** `toJSON()`: the fields under `RecordKeys`, the children's records under their serials. */
  function ToJson(f: Family, m: Member): (j: Json)
    ensures j.Obj? && |j.fields| == |RecordKeys(f, m.kind)|
    ensures forall i :: 0 <= i < |j.fields| ==> j.fields[i].0 == RecordKeys(f, m.kind)[i]
    decreases m, 1
  {
    var common := [("name", m.name), ("subject", m.subject), ("type", Leaf(Str(KindName(m.kind)))),
                   ("cert", BufferField(m.cert)), (PrivateKeyKey(f), BufferField(m.privateKey)),
                   (PublicKeyKey(f), BufferField(m.publicKey)), (PasswordKey(f), m.privateKeyPassword),
                   ("csr", BufferField(m.csr)), (RevokedKey(f), m.isRevoked)];
    if m.kind == CaKind then
      Obj(common + [("database", m.database), ("serial", m.serial), ("crl", BufferField(m.crl)),
                    ("crlnumber", m.crlnumber), ("children", Obj(FromEntries(ChildRecords(f, m, 0))))])
    else Obj(common)
  }

  /** `Object.entries(children).map(([serial, child]) => [serial, child.toJSON()])`, from the `n`-th entry on. */
  function ChildRecords(f: Family, m: Member, n: nat): (es: Dict<Json>)
    requires n <= |m.children|
    ensures |es| == |m.children| - n
    ensures forall i :: 0 <= i < |es| ==> es[i].0 == m.children[n + i].0
    decreases m, 0, |m.children| - n
  {
    if n == |m.children| then [] else [(m.children[n].0, ToJson(f, m.children[n].1))] + ChildRecords(f, m, n + 1)
  }

  // ---------------------------------------------------------------------------
  // Reading key material back
  // ---------------------------------------------------------------------------

  /** What reading `startsWith` of a value that is not text throws. */
  const NotText := TypeErr("data.startsWith is not a function")

  /**
    `Child.deserialize_buffer(data)` as child.js writes it. The test
    `typeof data === 'string' || data.startsWith('base64:')` sends every
    string to the base64 branch with its first seven characters dropped, and
    reads `startsWith` of anything else, which throws for `null` as for
    every other non-string.
  */
  function SnakeDeserializeAsWritten(data: Json): (r: Result<Bytes, Error>)
    ensures r.Ok? <==> data.Leaf? && data.v.Str?
    ensures r.Ok? ==> r.value == Base64.Decode(Slice(data.v.s, 7))
  {
    if data.Leaf? && data.v.Str? then Ok(Base64.Decode(Slice(data.v.s, 7)))
    else Err(NotText)
  }

  /**
    Reading a key-material field: `null` is no buffer, `"base64:"` text is
    decoded, any other string is taken as UTF-8, anything else throws. This is
    pki-member.js's `deserializeBuffer`, and what the documentation and the
    unreachable branches of child.js's `deserialize_buffer` describe; both
    families use it here.
  */
  function Deserialize(data: Json): (r: Result<Option<Bytes>, Error>)
    ensures r.Ok? <==> data == Leaf(Null) || (data.Leaf? && data.v.Str?)
    ensures r.Ok? && r.value.None? <==> data == Leaf(Null)
    ensures data.Leaf? && data.v.Str? && StartsWith(data.v.s, "base64:") ==> r == Ok(Some(Base64.Decode(data.v.s[7..])))
    ensures data.Leaf? && data.v.Str? && !StartsWith(data.v.s, "base64:") ==> r == Ok(Some(Utf8.Encode(data.v.s)))
  {
    match data
    case Leaf(Null) => Ok(None)
    case Leaf(Str(s)) =>
      if StartsWith(s, "base64:") then Ok(Some(Base64.Decode(s[7..]))) else Ok(Some(Utf8.Encode(s)))
    case _ => Err(NotText)
  }

  /** `BufferField` is read back by `Deserialize`. */
  lemma DeserializeBufferField(b: Option<Bytes>)
    ensures Deserialize(BufferField(b)) == Ok(b)
  {
    if b.Some? {
      var s := "base64:" + Base64.Encode(b.value);
      assert StartsWith(s, "base64:") by { assert s[..7] == "base64:"; }
      assert s[7..] == Base64.Encode(b.value);
      Base64.DecodeEncode(b.value);
    }
  }

  /**
    A buffer the source writes is read back wrongly by the as-written snake
    reader when it is missing (`null` throws), and a plain string it is
    documented to accept as UTF-8 comes back as different bytes.
  */
  lemma SnakeDeserializeMisreads()
    ensures SnakeDeserializeAsWritten(BufferField(None)).Err?
    ensures Deserialize(BufferField(None)) == Ok(None)
    ensures SnakeDeserializeAsWritten(Leaf(Str("abc"))) == Ok([])
    ensures Deserialize(Leaf(Str("abc"))) == Ok(Some([97, 98, 99]))
  {
    assert Slice("abc", 7) == "";
    assert Base64.Sextets("") == [];
    assert !StartsWith("abc", "base64:");
    assert Utf8.Encode("abc") == [97, 98, 99] by {
      assert "abc"[1..] == "bc" && "bc"[1..] == "c" && "c"[1..] == "";
    }
  }

  /**
    The reader a class's `fromJSON` applies to a key-material field. The
    snake classes call child.js's `deserialize_buffer`, taken as it stands
    (`AsWritten`) or as it was meant (`Corrected`, which is `Deserialize`);
    the camel classes call pki-member.js's `deserializeBuffer`, which is
    `Deserialize` either way.
  */
  function ReadBuffer(f: Family, code: Code, data: Json): (r: Result<Option<Bytes>, Error>)
    ensures f == Snake && code == AsWritten ==> (r.Ok? <==> data.Leaf? && data.v.Str?)
    ensures f == Snake && code == AsWritten && r.Ok? ==> r.value == Some(Base64.Decode(Slice(data.v.s, 7)))
    ensures !(f == Snake && code == AsWritten) ==> r == Deserialize(data)
    ensures r.Err? ==> r.error == NotText
  {
    if f == Snake && code == AsWritten then
      match SnakeDeserializeAsWritten(data)
      case Ok(b) => Ok(Some(b))
      case Err(e) => Err(e)
    else Deserialize(data)
  }

  /**
    A field `toJSON` wrote reads back as the buffer it holds, in either
    family; the one exception is the snake reader as written, which throws
    on a missing buffer's `null`.
  */
  lemma ReadBufferField(f: Family, code: Code, b: Option<Bytes>)
    ensures ReadBuffer(f, code, BufferField(b)) == if f == Snake && code == AsWritten && b.None? then Err(NotText) else Ok(b)
  {
    DeserializeBufferField(b);
    if b.Some? {
      var s := "base64:" + Base64.Encode(b.value);
      assert Slice(s, 7) == Base64.Encode(b.value);
      Base64.DecodeEncode(b.value);
    }
  }

  /** `json.csr ? deserialize(json.csr) : null`, and the same for `crl`. */
  function OptionalBuffer(f: Family, code: Code, data: Json): (r: Result<Option<Bytes>, Error>)
    ensures !JsonTruthy(data) ==> r == Ok(None)
    ensures JsonTruthy(data) ==> r == ReadBuffer(f, code, data)
  {
    if JsonTruthy(data) then ReadBuffer(f, code, data) else Ok(None)
  }

  /** An optional field `toJSON` wrote reads back as the buffer it holds, as written too: its `null` is never deserialised. */
  lemma OptionalBufferField(f: Family, code: Code, b: Option<Bytes>)
    ensures OptionalBuffer(f, code, BufferField(b)) == Ok(b)
  {
    ReadBufferField(f, code, b);
  }

  // ---------------------------------------------------------------------------
  // fromJSON
  // ---------------------------------------------------------------------------

  /** A constructor parameter's default: a missing field becomes `null`. */
  function Defaulted(j: Json): (r: Json)
    ensures r != Leaf(Undefined)
    ensures j != Leaf(Undefined) ==> r == j
  {
    if j == Leaf(Undefined) then Leaf(Null) else j
  }

  /**
    The class `{ca: CA, client: Client, server: Server}[childJson?.type]`
    names. A `type` that names a member every object inherits finds something
    without a `fromJSON` to call, which throws a `TypeError`; any other
    `type` finds nothing, which throws.
  */
  function ChildKind(cj: Json): (r: Result<Kind, Error>)
    ensures r.Ok? ==> cj.Obj? && KindName(r.value) == CaOpsConf.PropertyKey(JsonGet(cj.fields, "type"))
    ensures (cj.Obj? && JsonGet(cj.fields, "type").Leaf? && JsonGet(cj.fields, "type").v.Str?
             && JsonGet(cj.fields, "type").v.s in {"ca", "client", "server"}) ==> r.Ok?
  {
    var key := if cj.Obj? then CaOpsConf.PropertyKey(JsonGet(cj.fields, "type")) else "undefined";
    if key == "ca" then Ok(CaKind)
    else if key == "client" then Ok(ClientKind)
    else if key == "server" then Ok(ServerKind)
    else if ObjectPrototypeKey(key) then Err(TypeErr("cls.fromJSON is not a function"))
    else Err(Thrown("unknown .type while deserializing"))
  }

  /**
    `CA.fromJSON`, `Server.fromJSON`, `Client.fromJSON` (and the camel
    twins): the record's `type` must be the class's own; the fields are read
    in constructor-argument order; a CA's children are read in the order of
    their record.
  */
  function FromJson(f: Family, code: Code, j: Json, kind: Kind): (r: Result<Member, Error>)
    ensures r.Ok? ==> j.Obj? && JsonGet(j.fields, "type") == Leaf(Str(KindName(kind)))
    ensures r.Ok? ==> r.value.kind == kind && WellFormed(r.value.children)
    ensures j.Obj? && JsonGet(j.fields, "type") != Leaf(Str(KindName(kind))) ==> r.Err? && r.error.Thrown?
    decreases j, 2
  {
    if j.Leaf? && j.v.Str? then Err(Unmodelled("a record given as JSON text"))
    else if !(j.Obj? && JsonGet(j.fields, "type") == Leaf(Str(KindName(kind)))) then
      Err(Thrown("json.type must be the class's own type"))
    else
      var m :- ReadMember(f, code, j.fields, kind);
      if kind != CaKind then Ok(m) else ReadCa(f, code, j, m)
  }

  /** The fields every member's constructor takes: key material first, then `csr` only when truthy. */
  function ReadMember(f: Family, code: Code, fs: Dict<Json>, kind: Kind): (r: Result<Member, Error>)
    ensures r.Ok? <==> && ReadBuffer(f, code, JsonGet(fs, "cert")).Ok?
                       && ReadBuffer(f, code, JsonGet(fs, PrivateKeyKey(f))).Ok?
                       && ReadBuffer(f, code, JsonGet(fs, PublicKeyKey(f))).Ok?
                       && OptionalBuffer(f, code, JsonGet(fs, "csr")).Ok?
    ensures r.Err? ==> r.error == NotText
    ensures r.Ok? ==> r.value.kind == kind && r.value.children == []
    ensures r.Ok? ==> r.value.name != Leaf(Undefined) && r.value.isRevoked != Leaf(Undefined)
  {
    var cert :- ReadBuffer(f, code, JsonGet(fs, "cert"));
    var key :- ReadBuffer(f, code, JsonGet(fs, PrivateKeyKey(f)));
    var pub :- ReadBuffer(f, code, JsonGet(fs, PublicKeyKey(f)));
    var csr :- OptionalBuffer(f, code, JsonGet(fs, "csr"));
    Ok(Member(kind, Defaulted(JsonGet(fs, "name")), Defaulted(JsonGet(fs, "subject")), cert, key, pub,
              Defaulted(JsonGet(fs, PasswordKey(f))), csr, Defaulted(JsonGet(fs, RevokedKey(f))),
              Leaf(Null), Leaf(Null), Leaf(Null), None, []))
  }

  /** The CA constructor's extra arguments: `crl` only when truthy, then the children. */
  function ReadCa(f: Family, code: Code, j: Json, m: Member): (r: Result<Member, Error>)
    requires j.Obj?
    ensures r.Ok? ==> r.value.kind == m.kind && WellFormed(r.value.children)
    decreases j, 1
  {
    var fs := j.fields;
    var crl :- OptionalBuffer(f, code, JsonGet(fs, "crl"));
    var children :- Children(f, code, j);
    FromEntriesWellFormed(children);
    Ok(m.(database := Defaulted(JsonGet(fs, "database")), serial := Defaulted(JsonGet(fs, "serial")),
          crl := crl, crlnumber := Defaulted(JsonGet(fs, "crlnumber")), children := FromEntries(children)))
  }

  /**
    `Object.entries(json.children)` mapped through the child classes'
    `fromJSON`. `null` or a missing `children` throws; a non-empty string or
    array has one-character or string entries, whose `type` finds no class;
    other primitives have no entries.
  */
  function Children(f: Family, code: Code, j: Json): (r: Result<Dict<Member>, Error>)
    requires j.Obj?
    decreases j, 0, 1
  {
    match Lookup(j.fields, "children")
    case None => Err(TypeErr("cannot convert undefined to object"))
    case Some(kids) =>
      assert kids < j;
      match kids
      case Obj(_) => ChildEntries(f, code, j, kids, 0)
      case Leaf(v) =>
        if Nullish(v) then Err(TypeErr("cannot convert null to object"))
        else if (v.Str? && |v.s| > 0) || (v.Arr? && |v.items| > 0) then Err(Thrown("unknown .type while deserializing"))
        else Ok([])
  }

  function ChildEntries(f: Family, code: Code, top: Json, kids: Json, n: nat): (r: Result<Dict<Member>, Error>)
    requires kids.Obj? && kids < top && n <= |kids.fields|
    decreases top, 0, 0, |kids.fields| - n
  {
    if n == |kids.fields| then Ok([])
    else
      var (serial, cj) := kids.fields[n];
      assert cj < kids;
      var kind :- ChildKind(cj);
      var child :- FromJson(f, code, cj, kind);
      var rest :- ChildEntries(f, code, top, kids, n + 1);
      Ok([(serial, child)] + rest)
  }

  lemma {:induction false} FromEntriesWellFormed<V>(es: seq<(string, V)>)
    ensures WellFormed(FromEntries(es))
    decreases |es|
  {
    if |es| > 0 {
      FromEntriesWellFormed(es[..|es| - 1]);
      SetWellFormed(FromEntries(es[..|es| - 1]), es[|es| - 1].0, es[|es| - 1].1);
    }
  }

  // ---------------------------------------------------------------------------
  // Round trip
  // ---------------------------------------------------------------------------

  /**
    What a server or client looks like after a trip through its record:
    fields that were `undefined` come back as `null` (the constructors'
    defaults), and the CA fields are not written.
  */
  function Basic(m: Member): (n: Member)
    ensures n.kind == m.kind && n.children == []
  {
    Member(m.kind, Defaulted(m.name), Defaulted(m.subject), m.cert, m.privateKey, m.publicKey,
           Defaulted(m.privateKeyPassword), m.csr, Defaulted(m.isRevoked),
           Leaf(Null), Leaf(Null), Leaf(Null), None, [])
  }

  /** What any member looks like after the trip: a CA keeps its CA fields and its children, read back in order. */
  function Normal(m: Member): (n: Member)
    ensures n.kind == m.kind && |n.children| == (if m.kind == CaKind then |m.children| else 0)
    decreases m
  {
    if m.kind == CaKind then
      Basic(m).(database := Defaulted(m.database), serial := Defaulted(m.serial), crl := m.crl,
                crlnumber := Defaulted(m.crlnumber),
                children := seq(|m.children|, i requires 0 <= i < |m.children| => (m.children[i].0, Normal(m.children[i].1))))
    else Basic(m)
  }

  /** The member holds its certificate and both keys. */
  predicate OwnKeysPresent(m: Member) {
    m.cert.Some? && m.privateKey.Some? && m.publicKey.Some?
  }

  /** Every member whose record `toJSON` writes holds its certificate and both keys: a CA's descendants too. */
  predicate KeysPresent(m: Member)
    decreases m
  {
    && OwnKeysPresent(m)
    && (m.kind == CaKind ==> forall i :: 0 <= i < |m.children| ==> KeysPresent(m.children[i].1))
  }

  /** Whether a reader takes back what `toJSON` wrote: always, but for the snake reader as written, which needs every key present. */
  predicate ReadsBack(f: Family, code: Code, m: Member) {
    f == Snake && code == AsWritten ==> KeysPresent(m)
  }

  /** Whether a reader takes back the children from the `n`-th on. */
  predicate ChildrenReadBack(f: Family, code: Code, m: Member, n: nat) {
    forall i :: n <= i < |m.children| ==> ReadsBack(f, code, m.children[i].1)
  }

  predicate DistinctKeys(ks: seq<string>) {
    forall i, j :: 0 <= i < j < |ks| ==> ks[i] != ks[j]
  }

  lemma RecordKeysDistinct(f: Family, k: Kind)
    ensures DistinctKeys(RecordKeys(f, k))
  {
  }

  /** Reading a key of `toJSON`'s record finds the field written under it. */
  lemma ReadField(f: Family, m: Member, i: nat)
    requires i < |RecordKeys(f, m.kind)|
    ensures JsonGet(ToJson(f, m).fields, RecordKeys(f, m.kind)[i]) == ToJson(f, m).fields[i].1
  {
    var fs := ToJson(f, m).fields;
    RecordKeysDistinct(f, m.kind);
    LookupFirst(fs, i);
  }

  lemma CommonFields(f: Family, m: Member)
    ensures JsonGet(ToJson(f, m).fields, "name") == m.name
    ensures JsonGet(ToJson(f, m).fields, "subject") == m.subject
    ensures JsonGet(ToJson(f, m).fields, "type") == Leaf(Str(KindName(m.kind)))
    ensures JsonGet(ToJson(f, m).fields, "cert") == BufferField(m.cert)
    ensures JsonGet(ToJson(f, m).fields, PrivateKeyKey(f)) == BufferField(m.privateKey)
    ensures JsonGet(ToJson(f, m).fields, PublicKeyKey(f)) == BufferField(m.publicKey)
    ensures JsonGet(ToJson(f, m).fields, PasswordKey(f)) == m.privateKeyPassword
    ensures JsonGet(ToJson(f, m).fields, "csr") == BufferField(m.csr)
    ensures JsonGet(ToJson(f, m).fields, RevokedKey(f)) == m.isRevoked
  {
    ReadField(f, m, 0);
    ReadField(f, m, 1);
    ReadField(f, m, 2);
    ReadField(f, m, 3);
    ReadField(f, m, 4);
    ReadField(f, m, 5);
    ReadField(f, m, 6);
    ReadField(f, m, 7);
    ReadField(f, m, 8);
  }

  lemma CaFields(f: Family, m: Member)
    requires m.kind == CaKind
    ensures JsonGet(ToJson(f, m).fields, "database") == m.database
    ensures JsonGet(ToJson(f, m).fields, "serial") == m.serial
    ensures JsonGet(ToJson(f, m).fields, "crl") == BufferField(m.crl)
    ensures JsonGet(ToJson(f, m).fields, "crlnumber") == m.crlnumber
  {
    ReadField(f, m, 9);
    ReadField(f, m, 10);
    ReadField(f, m, 11);
    ReadField(f, m, 12);
  }

  /**
    A member's own fields read back from its record; the snake reader as
    written throws instead when the certificate or a key is missing.
  */
  lemma ReadMemberRoundTrip(f: Family, code: Code, m: Member)
    ensures ReadMember(f, code, ToJson(f, m).fields, m.kind)
         == if f == Snake && code == AsWritten && !OwnKeysPresent(m) then Err(NotText) else Ok(Basic(m))
  {
    CommonFields(f, m);
    ReadWrittenFields(f, code, ToJson(f, m).fields, m);
  }

  lemma ReadWrittenFields(f: Family, code: Code, fs: Dict<Json>, m: Member)
    requires JsonGet(fs, "name") == m.name && JsonGet(fs, "subject") == m.subject
    requires JsonGet(fs, "cert") == BufferField(m.cert)
    requires JsonGet(fs, PrivateKeyKey(f)) == BufferField(m.privateKey)
    requires JsonGet(fs, PublicKeyKey(f)) == BufferField(m.publicKey)
    requires JsonGet(fs, PasswordKey(f)) == m.privateKeyPassword
    requires JsonGet(fs, "csr") == BufferField(m.csr)
    requires JsonGet(fs, RevokedKey(f)) == m.isRevoked
    ensures ReadMember(f, code, fs, m.kind)
         == if f == Snake && code == AsWritten && !OwnKeysPresent(m) then Err(NotText) else Ok(Basic(m))
  {
    ReadBufferField(f, code, m.cert);
    ReadBufferField(f, code, m.privateKey);
    ReadBufferField(f, code, m.publicKey);
    OptionalBufferField(f, code, m.csr);
  }

  /**
    The record of a tree whose children objects are well formed reads back as
    the normalised tree, unless the reader is the snake one as written and
    some member in the tree lacks its certificate or a key: then the whole
    read throws the `TypeError` of that member's `null`.
  */
  lemma {:induction false} RoundTrip(f: Family, code: Code, m: Member)
    requires TreeWellFormed(m)
    ensures FromJson(f, code, ToJson(f, m), m.kind) == if ReadsBack(f, code, m) then Ok(Normal(m)) else Err(NotText)
    decreases m, 1
  {
    var j := ToJson(f, m);
    CommonFields(f, m);
    ReadMemberRoundTrip(f, code, m);
    FromJsonSteps(f, code, j, m.kind);
    ReadsBackUnfold(f, code, m);
    if f == Snake && code == AsWritten && !OwnKeysPresent(m) {
      assert FromJson(f, code, j, m.kind) == Err(NotText);
    } else if m.kind != CaKind {
      assert FromJson(f, code, j, m.kind) == Ok(Basic(m));
    } else {
      CaFields(f, m);
      ChildrenRoundTrip(f, code, m);
      ReadWrittenCaFields(f, code, j, m);
    }
  }

  /** A tree reads back when its root's own keys do and, for a CA, each child's tree does. */
  lemma ReadsBackUnfold(f: Family, code: Code, m: Member)
    ensures ReadsBack(f, code, m)
        <==> (f == Snake && code == AsWritten ==> OwnKeysPresent(m))
             && (m.kind == CaKind ==> ChildrenReadBack(f, code, m, 0))
  {
  }

  /** Both families read back what they write when the reader is the one meant; the camel reader always is. */
  lemma RoundTripCorrected(f: Family, m: Member)
    requires TreeWellFormed(m)
    ensures FromJson(f, Corrected, ToJson(f, m), m.kind) == Ok(Normal(m))
    ensures FromJson(Camel, AsWritten, ToJson(Camel, m), m.kind) == Ok(Normal(m))
  {
    RoundTrip(f, Corrected, m);
    RoundTrip(Camel, AsWritten, m);
  }

  /**
    The snake classes as written read a tree's record back exactly when every
    member in it holds its certificate and both keys, and then read it back
    right.
  */
  lemma SnakeAsWrittenRoundTrip(m: Member)
    requires TreeWellFormed(m)
    ensures FromJson(Snake, AsWritten, ToJson(Snake, m), m.kind).Ok? <==> KeysPresent(m)
    ensures KeysPresent(m) ==> FromJson(Snake, AsWritten, ToJson(Snake, m), m.kind) == Ok(Normal(m))
  {
    RoundTrip(Snake, AsWritten, m);
  }

  /**
    A CA just constructed, whose certificate and keys are all `null`, writes a
    record the snake `CA.fromJSON` as written cannot read; the reader as
    meant gives the same CA back.
  */
  lemma FreshCaRecordThrows()
    ensures FromJson(Snake, AsWritten, ToJson(Snake, Fresh(CaKind)), CaKind) == Err(NotText)
    ensures FromJson(Snake, Corrected, ToJson(Snake, Fresh(CaKind)), CaKind) == Ok(Fresh(CaKind))
  {
    var m := Fresh(CaKind);
    RoundTrip(Snake, AsWritten, m);
    RoundTrip(Snake, Corrected, m);
    assert Normal(m) == m;
  }

  /** A record of the right type goes on to the CA fields, if any, once its member fields read. */
  lemma FromJsonSteps(f: Family, code: Code, j: Json, kind: Kind)
    requires j.Obj? && JsonGet(j.fields, "type") == Leaf(Str(KindName(kind)))
    ensures ReadMember(f, code, j.fields, kind).Err? ==> FromJson(f, code, j, kind) == Err(ReadMember(f, code, j.fields, kind).error)
    ensures ReadMember(f, code, j.fields, kind).Ok? && kind != CaKind ==> FromJson(f, code, j, kind) == ReadMember(f, code, j.fields, kind)
    ensures ReadMember(f, code, j.fields, kind).Ok? && kind == CaKind ==> FromJson(f, code, j, kind) == ReadCa(f, code, j, ReadMember(f, code, j.fields, kind).value)
  {
  }

  lemma ReadWrittenCaFields(f: Family, code: Code, j: Json, m: Member)
    requires j.Obj? && m.kind == CaKind
    requires JsonGet(j.fields, "database") == m.database && JsonGet(j.fields, "serial") == m.serial
    requires JsonGet(j.fields, "crl") == BufferField(m.crl) && JsonGet(j.fields, "crlnumber") == m.crlnumber
    requires Children(f, code, j) == (if ChildrenReadBack(f, code, m, 0) then Ok(NormalChildren(m)) else Err(NotText))
    requires FromEntries(NormalChildren(m)) == Normal(m).children
    ensures ReadCa(f, code, j, Basic(m)) == if ChildrenReadBack(f, code, m, 0) then Ok(Normal(m)) else Err(NotText)
  {
    OptionalBufferField(f, code, m.crl);
  }

  /** The normalised children, in order. */
  function NormalChildren(m: Member): Dict<Member> {
    seq(|m.children|, i requires 0 <= i < |m.children| => (m.children[i].0, Normal(m.children[i].1)))
  }

  lemma ChildrenRoundTrip(f: Family, code: Code, m: Member)
    requires TreeWellFormed(m) && m.kind == CaKind
    ensures Children(f, code, ToJson(f, m)) == if ChildrenReadBack(f, code, m, 0) then Ok(NormalChildren(m)) else Err(NotText)
    ensures FromEntries(NormalChildren(m)) == Normal(m).children
    decreases m, 0
  {
    var j := ToJson(f, m);
    ReadField(f, m, 13);
    var recs := ChildRecords(f, m, 0);
    assert WellFormed(recs) by {
      forall i, k | 0 <= i < k < |recs| ensures recs[i].0 != recs[k].0 {
        assert recs[i].0 == m.children[i].0 && recs[k].0 == m.children[k].0;
      }
      forall i, k | 0 <= i < k < |recs| && IsIndexKey(recs[k].0) ensures IndexAtMost(recs[i].0, recs[k].0) {
        assert recs[i].0 == m.children[i].0 && recs[k].0 == m.children[k].0;
      }
    }
    FromEntriesOfWellFormed(recs);
    var kids := Obj(recs);
    assert Lookup(j.fields, "children") == Some(kids);
    ChildEntriesRoundTrip(f, code, m, j, kids, 0);
    var nc := NormalChildren(m);
    assert nc[0..] == nc;
    assert WellFormed(nc) by {
      forall i, k | 0 <= i < k < |nc| ensures nc[i].0 != nc[k].0 {
        assert nc[i].0 == m.children[i].0 && nc[k].0 == m.children[k].0;
      }
      forall i, k | 0 <= i < k < |nc| && IsIndexKey(nc[k].0) ensures IndexAtMost(nc[i].0, nc[k].0) {
        assert nc[i].0 == m.children[i].0 && nc[k].0 == m.children[k].0;
      }
    }
    FromEntriesOfWellFormed(nc);
  }

  lemma {:induction false} ChildEntriesRoundTrip(f: Family, code: Code, m: Member, top: Json, kids: Json, n: nat)
    requires TreeWellFormed(m) && n <= |m.children|
    requires kids.Obj? && kids < top && kids.fields == ChildRecords(f, m, 0)
    ensures ChildEntries(f, code, top, kids, n)
         == if ChildrenReadBack(f, code, m, n) then Ok(NormalChildren(m)[n..]) else Err(NotText)
    decreases m, 0, |m.children| - n
  {
    var nc := NormalChildren(m);
    if n == |m.children| {
      assert nc[n..] == [];
    } else {
      ChildRecordRoundTrip(f, code, m, kids, n);
      ChildEntriesRoundTrip(f, code, m, top, kids, n + 1);
      var kind := m.children[n].1.kind;
      assert ChildrenReadBack(f, code, m, n) <==> ReadsBack(f, code, m.children[n].1) && ChildrenReadBack(f, code, m, n + 1);
      if !ReadsBack(f, code, m.children[n].1) {
        ChildEntriesFails(f, code, top, kids, n, kind);
      } else {
        ChildEntriesStep(f, code, top, kids, n, kind, nc[n].1);
        DropOne(nc, n);
      }
    }
  }

  lemma DropOne<T>(s: seq<T>, n: nat)
    requires n < |s|
    ensures s[n..] == [s[n]] + s[n + 1..]
  {
  }

  /** The `n`-th child record names the child's class and reads back as the normalised child, or throws as the child's own record does. */
  lemma ChildRecordRoundTrip(f: Family, code: Code, m: Member, kids: Json, n: nat)
    requires TreeWellFormed(m) && n < |m.children|
    requires kids.Obj? && kids.fields == ChildRecords(f, m, 0)
    ensures kids.fields[n].0 == NormalChildren(m)[n].0
    ensures ChildKind(kids.fields[n].1) == Ok(m.children[n].1.kind)
    ensures FromJson(f, code, kids.fields[n].1, m.children[n].1.kind)
         == if ReadsBack(f, code, m.children[n].1) then Ok(NormalChildren(m)[n].1) else Err(NotText)
    decreases m, 0, 0
  {
    var c := m.children[n].1;
    assert TreeWellFormed(c);
    ChildRecordsAt(f, m, 0, n);
    assert kids.fields[n] == (m.children[n].0, ToJson(f, c));
    ChildKindOfRecord(f, c);
    RoundTrip(f, code, c);
  }

  /** The `type` of a member's record names its class. */
  lemma ChildKindOfRecord(f: Family, c: Member)
    ensures ChildKind(ToJson(f, c)) == Ok(c.kind)
  {
    var j := ToJson(f, c);
    ReadField(f, c, 2);
    assert j.fields[2].1 == Leaf(Str(KindName(c.kind)));
    assert CaOpsConf.PropertyKey(JsonGet(j.fields, "type")) == KindName(c.kind);
  }

  /** A child entry whose record reads is followed by the rest, and their failure is the whole read's. */
  lemma ChildEntriesStep(f: Family, code: Code, top: Json, kids: Json, n: nat, kind: Kind, child: Member)
    requires kids.Obj? && kids < top && n < |kids.fields|
    requires ChildKind(kids.fields[n].1) == Ok(kind)
    requires FromJson(f, code, kids.fields[n].1, kind) == Ok(child)
    ensures ChildEntries(f, code, top, kids, n + 1).Ok? ==>
      ChildEntries(f, code, top, kids, n) == Ok([(kids.fields[n].0, child)] + ChildEntries(f, code, top, kids, n + 1).value)
    ensures ChildEntries(f, code, top, kids, n + 1).Err? ==> ChildEntries(f, code, top, kids, n) == ChildEntries(f, code, top, kids, n + 1)
  {
  }

  /** A child entry whose record throws stops the read with that error. */
  lemma ChildEntriesFails(f: Family, code: Code, top: Json, kids: Json, n: nat, kind: Kind)
    requires kids.Obj? && kids < top && n < |kids.fields|
    requires ChildKind(kids.fields[n].1) == Ok(kind)
    requires FromJson(f, code, kids.fields[n].1, kind).Err?
    ensures ChildEntries(f, code, top, kids, n) == Err(FromJson(f, code, kids.fields[n].1, kind).error)
  {
  }

  lemma {:induction false} ChildRecordsAt(f: Family, m: Member, n: nat, i: nat)
    requires n <= i < |m.children|
    ensures ChildRecords(f, m, n)[i - n] == (m.children[i].0, ToJson(f, m.children[i].1))
    decreases |m.children| - n
  {
    var rs := ChildRecords(f, m, n);
    assert rs == [(m.children[n].0, ToJson(f, m.children[n].1))] + ChildRecords(f, m, n + 1);
    if i > n {
      ChildRecordsAt(f, m, n + 1, i);
      assert rs[i - n] == ChildRecords(f, m, n + 1)[i - (n + 1)];
    }
  }

  /** A record written by one family is not read by the other: the key names differ, and a missing key throws. */
  lemma FamiliesDisagree(m: Member, code: Code)
    ensures FromJson(Camel, code, ToJson(Snake, m), m.kind).Err?
    ensures FromJson(Snake, code, ToJson(Camel, m), m.kind).Err?
  {
    ForeignRecordRejected(Snake, Camel, code, m);
    ForeignRecordRejected(Camel, Snake, code, m);
  }

  lemma ForeignRecordRejected(w: Family, f: Family, code: Code, m: Member)
    requires w != f
    ensures FromJson(f, code, ToJson(w, m), m.kind).Err?
  {
    var fs := ToJson(w, m).fields;
    forall i | 0 <= i < |fs| ensures fs[i].0 != PrivateKeyKey(f) {
      assert fs[i].0 == RecordKeys(w, m.kind)[i];
    }
    assert JsonGet(fs, PrivateKeyKey(f)) == Leaf(Undefined);
    if ReadBuffer(f, code, JsonGet(fs, "cert")).Ok? {
      MissingKeyRejected(f, code, fs, m.kind);
    }
    FromJsonNeedsMember(f, code, ToJson(w, m), m.kind);
  }

  lemma MissingKeyRejected(f: Family, code: Code, fs: Dict<Json>, kind: Kind)
    requires ReadBuffer(f, code, JsonGet(fs, "cert")).Ok? && JsonGet(fs, PrivateKeyKey(f)) == Leaf(Undefined)
    ensures ReadMember(f, code, fs, kind) == Err(NotText)
  {
  }

  lemma FromJsonNeedsMember(f: Family, code: Code, j: Json, kind: Kind)
    requires j.Obj? && ReadMember(f, code, j.fields, kind).Err?
    ensures FromJson(f, code, j, kind).Err?
  {
  }
}
