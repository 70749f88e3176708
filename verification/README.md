# node-openssl-thingy PKI core in Dafny

This project models the public-key infrastructure of node-openssl-thingy:
a tree of members rooted at a certificate authority (CA), where every member
is a CA, a server or a client. A CA creates its own self-signed certificate,
adds children by having them create a certificate signing request (CSR) and
signing it, finds children by serial, name or subject, revokes them and
issues certificate revocation lists (CRLs). It keeps its OpenSSL "ledger"
(serial file, CRL-number file, index database) in its own fields. Every
change fires an `updated` event that travels to the root. The whole tree
serialises to a JSON record and is read back from one.

The repository has two families of classes, and both are modelled:

- the snake family: `Child`, `CA`, `Server`, `Client`, with `snake_case`
  record keys;
- the camel family: `PkiChild`, `PkiCA`, `PkiServer`, `PkiClient`, with
  `camelCase` keys.

`Family = Snake | Camel` selects the family. The two families differ in:

- how events travel (`Events.EmitUpdate` against `Events.Emit`);
- how arguments reach the config builders;
- the record keys.

The model also covers:

- the OpenSSL config text builder `create_conf_data`;
- the six section builders under `lib/create-conf-data/for/`;
- the subject helpers `obj2subject`, `subject2obj` and `get_subject`;
- the parser of `openssl crl` output, `parse_crl_output`.

Structure:

- `Members` holds the tree. `Member` is an immutable value and `Addr` is the
  path of child keys (serials) from the root. `At` reads a member, `Put`
  replaces one, and parent links are implied by addresses.
- An operation returns an `Outcome`: its result, the new root, and the
  events it fired, in order.
- A failing operation returns `Err(...)`, with the JavaScript exception kind
  kept (`TypeErr`, `RangeErr`, `Thrown`, `Revoked` for the `{error:'revoked'}`
  object).
- A `Code` parameter selects, at the places listed under "Findings", between
  the code as written (`AsWritten`) and the evidently intended code
  (`Corrected`). The lemmas state what each gives.

The world outside the core is a parameter, `Backend.Env`:

- the `openssl` command wrappers are total functions in `Backend.Openssl`;
- the temporary file paths are `TempPaths`;
- the clock is `now`, and `new Date(text)` is `parseDate`.

JavaScript values are `JsObject.Value` / `Json`. Objects are ordered
dictionaries kept in JavaScript's property order, so `Object.entries`,
`Object.assign`, spreading and `JSON.stringify` keep their order. Node
built-ins used by the core are written out:

- `Buffer` base64 and UTF-8 (`Base64`, `Utf8`);
- `querystring.escape` and `querystring.unescape` (`Percent`);
- `String.prototype.trim` and `split`, and `parseInt(s, 16)` (`Text`);
- `JSON.stringify` of a section object (`JsonText`).

## Model

| member | source | states |
|---|---|---|
| Members.GetCert | lib/pki/child.js:59-62 | the `cert` getter answers the stored certificate exactly when the member is not revoked, and throws the `revoked` error otherwise |
| Members.SetCert | lib/pki/child.js:64-67 | the `cert` setter replaces the certificate and nothing else, and on a revoked member throws `revoked` and changes nothing |
| Members.GetPrivateKey | lib/pki/child.js:73-76 | the `private_key` getter answers the key exactly when the member is not revoked |
| Members.GetPublicKey | lib/pki/pki-member.js:64-67 | the `publicKey` getter answers the key exactly when the member is not revoked |
| Members.Put | lib/pki/ca.js:101-109 | replacing the member at an address makes that address hold the new member |
| Members.PutElsewhere | lib/pki/ca.js:101-109 | replacing one member leaves every member on a different branch untouched |
| Members.PutSameChildren | lib/pki/ca.js:101-109 | a replacement that keeps the member's children leaves every address that is not an ancestor of it unchanged |
| Members.PutKeepsAncestors | lib/pki/ca.js:101-109 | replacing a member leaves the own fields of each of its ancestors unchanged |
| Members.PutWellFormed | lib/pki/ca.js:101-109 | replacing a member keeps every children object free of duplicate keys |
| Members.PutApart | lib/pki/ca.js:101-109 | replacing a member leaves every member in another branch of the tree, with all below it, as it was |
| Members.FramePut | lib/pki/ca.js:101-109 | replacing a member by one with the same children keeps every address and the own fields of every member but that one |
| Members.FrameTrans | lib/pki/ca.js:364-406 | two changes in a row touch at most the members either of them touches |
| Members.PutOffPath | lib/pki/ca.js:101-109 | whatever is put at an address, every other branch and the own fields of every ancestor stay as they were |
| Members.PutTwice | lib/pki/ca.js:390-392 | writing the same member twice is writing it once with the second value |
| Members.PathNamesMember | lib/pki/child.js:251-265 | the `path` text `/k1/k2/...` splits back into the serials that lead from the root to the member, so the path names the member it was computed for |
| Members.CertChain | lib/pki/child.js:184-193 | `cert_chain` succeeds exactly when the member and every ancestor hold a certificate and are not revoked; it starts with the member's own certificate and ends with the root's; a failure is `revoked` or the "has no cert" error |
| Members.CertChainConcat | lib/pki/pki-member.js:98-107 | the chain is the concatenation of the certificates from the member up to the root, in that order |
| Members.GetPkcs12 | lib/pki/child.js:195-200 | `get_pkcs12` throws a TypeError for `null` options, `revoked` for a revoked member and an error when the certificate or key is missing; otherwise it succeeds exactly when the PKCS#12 export for this certificate, key, password and `!!legacy` succeeds, answering its bundle or passing on its error |
| Events.EmitUpdate | lib/pki/child.js:25-33 | a snake `emit_update` fires one `updated` event at the member and one at each ancestor, in order from the member to the root, each carrying the reason and the originating member |
| Events.EmitUpdateOnce | lib/pki/child.js:25-33 | every ancestor of the originating member hears the update exactly once, and no other member hears it |
| Events.Emit | lib/pki/pki-member.js:23-31 | a camel `emit('updated')` ends with the event at the emitting member, after the listener-driven events fired at its ancestors |
| Events.EmitCount | lib/pki/pki-member.js:23-31 | a camel event fired at depth d produces 2^d events in all, because each ancestor's own listener fires the event on again towards the root |
| Events.EmitStaysAbove | lib/pki/pki-member.js:23-31 | every event a camel emission produces is fired at the member or one of its ancestors |
| Events.OwnListenersHearOnce | lib/pki/pki-member.js:23-31 | only the final event of a camel emission is fired at the emitting member itself |
| Events.Emitted | lib/pki/pki-ca.js:96 | an operation's event log has depth + 1 events in the snake family and 2^depth in the camel family |
| Records.ToJson | lib/pki/child.js:41-53 | `toJSON` writes the member's fields under the family's keys in declaration order, with the CA fields and `children` added for a CA |
| Records.ChildRecords | lib/pki/ca.js:54-56 | the `children` record keeps every child's serial key, in order |
| Records.Deserialize | lib/pki/pki-member.js:77-83 | `null` reads as no buffer; a `base64:` text reads as the decoded bytes; any other text reads as its UTF-8 bytes; anything else is refused |
| Records.DeserializeBufferField | lib/pki/child.js:46-50 | reading a written buffer field gives back the buffer, or no buffer for `null` |
| Records.SnakeDeserializeAsWritten | lib/pki/child.js:120-132 | as written, `deserialize_buffer` accepts exactly the texts, and decodes every text as base64 after dropping its first seven characters |
| Records.SnakeDeserializeMisreads | lib/pki/child.js:120-132 | as written, a `null` field throws where `null` was meant to give no buffer, and the plain text "abc" reads as no bytes instead of 61 62 63 |
| Records.OptionalBuffer | lib/pki/ca.js:75-78 | a falsy `csr` or `crl` field reads as no buffer, and a truthy one is read by the class's buffer reader |
| Records.ReadBuffer | lib/pki/child.js:120-132 | the snake reader as written accepts exactly the texts, decodes each as base64 after dropping its first seven characters, and throws a TypeError on anything else, `null` included; the snake reader as meant and the camel reader are `Deserialize` |
| Records.ReadBufferField | lib/pki/child.js:120-122 | a key-material field `toJSON` wrote reads back as the buffer it holds, except that the snake reader as written throws on the `null` of a missing buffer |
| Records.OptionalBufferField | lib/pki/ca.js:75-78 | a `csr` or `crl` field `toJSON` wrote reads back as the buffer it holds with either reader, because a `null` is never handed to the reader |
| Records.ChildKind | lib/pki/ca.js:86-88 | a child record is read as the kind its `type` names; `ca`, `client` and `server` are always accepted |
| Records.FromJson | lib/pki/ca.js:65-99 | `fromJSON` refuses a record whose `type` is not the expected kind, and a record it reads gives a member of that kind whose children have distinct keys |
| Records.ReadMember | lib/pki/server.js:18-31 | reading a member's own fields succeeds exactly when its certificate, both keys and its `csr` pass the class's buffer reader, and a failure is that reader's TypeError; a success is a member of the requested kind with no children and defined `name` and `is_revoked` |
| Records.RoundTrip | lib/pki/ca.js:65-99 | reading back the record a member writes gives the member again, with all its descendants in order, unless the snake reader as written meets a member whose certificate or a key is `null`: then the read throws its TypeError. A field that was `undefined` comes back as the constructor's `null` default, and a server's or client's CA-only fields are not written |
| Records.RoundTripCorrected | lib/pki/pki-member.js:77-83 | with the buffer reader as meant, and always in the camel family, the record of every tree reads back as the tree |
| Records.SnakeAsWrittenRoundTrip | lib/pki/child.js:120-122 | the snake classes as written read a tree's record back exactly when every member in it holds its certificate and both keys, and then give the tree back |
| Records.FreshCaRecordThrows | lib/pki/ca.js:71-73 | the record of a CA just constructed, whose certificate and keys are `null`, makes the snake `CA.fromJSON` as written throw; with the reader as meant it reads back as the same CA |
| Records.ReadMemberRoundTrip | lib/pki/client.js:10-31 | a member's own record reads back to the same own fields, unless the snake reader as written meets a `null` certificate or key and throws |
| Records.ChildrenRoundTrip | lib/pki/ca.js:84-94 | the `children` record reads back to the same serials with the same children, in the same order, unless the snake reader as written meets a `null` certificate or key somewhere below, and then it throws |
| Records.ForeignRecordRejected | lib/pki/pki-member.js:35-47 | a record written by one family is refused by the other, because its key fields are missing under the other family's names |
| Records.MissingKeyRejected | lib/pki/ca.js:71-72 | a record without a private-key field is refused with the reader's TypeError, because `undefined` is not a buffer encoding |
| Records.FromJsonNeedsMember | lib/pki/ca.js:68-81 | a CA record whose own fields cannot be read is refused before any child is read |
| ChildLookup.KeySerials | lib/pki/ca.js:269-270 | every child key is read as `parseInt(key, 16)` |
| ChildLookup.FindBySerial | lib/pki/ca.js:268-273 | the search answers the first child whose key parses to the wanted number, and answers nothing when no key does or the number is NaN |
| ChildLookup.FindByName | lib/pki/ca.js:283-287 | the search answers the first child whose name is strictly equal to the wanted one |
| ChildLookup.FindBySubject | lib/pki/ca.js:288-299 | the search answers the first child whose parsed subject holds every needle field; reading a child subject that is not a text throws a TypeError, unless an earlier child already matched |
| ChildLookup.GetChild | lib/pki/ca.js:267-304 | `get_child` as corrected (`Code = Corrected`; the code as written is `ChildLookup.GetChildAsWritten`) looks up a text by its hex value and a number as is; an object is looked up by its truthy `serial`, else its `name`, else its `subject`; with none of these it throws, and `null` throws a TypeError |
| ChildLookup.GetChildAsWritten | lib/pki/ca.js:281-282 | as written, an object whose truthy `serial` is not a number finds no child, because the object itself is parsed as the serial |
| ChildLookup.QueryAsWritten | lib/pki/pki-ca.js:204-205 | the code as written and the corrected code agree on every query without a truthy serial field. As written, a truthy serial field that is not a number finds nothing |
| ChildLookup.SerialFindsChild | lib/pki/ca.js:275-282 | a child is found by its own serial text, both given plainly and as `{serial}` in the corrected code, but `{serial}` finds nothing as written |
| ChildLookup.SerialObjectQueries | lib/pki/pki-ca.js:204-205 | for every hex serial text, the corrected `{serial}` query searches by that serial's value, and the code as written answers nothing |
| ChildLookup.NameFindsChild | lib/pki/pki-ca.js:206-210 | a child with a truthy name is found by that name unless an earlier child has the same name |
| ChildLookup.OwnSubjectHolds | lib/pki/pki-ca.js:211-222 | a child's own subject text, used as the needle, is held by that child's parsed subject |
| Requests.Run | lib/pki/child.js:238 | running a member step stores the stepped member at its address |
| Requests.AssignLookup | lib/pki/child.js:223 | `Object.assign({}, {common_name}, conf_args)` reads a key from `conf_args` when it has one, and from the earlier object otherwise |
| Requests.AlgorithmOf | lib/pki/child.js:169-178 | `create_keypair` picks RSA exactly for the names that lower-case to "rsa" and ECDSA exactly for "ecdsa"; another text is a RangeError, and a non-text throws a TypeError |
| Requests.RsaSpellings | lib/pki/child.js:170-171 | the algorithm names taken as RSA are exactly the eight upper/lower-case spellings of "rsa" |
| Requests.SnakeCreateKeypair | lib/pki/child.js:140-178 | a new key pair is stored on the member with the reason `create-rsa-keypair` or `create-ecdsa-keypair`; RSA defaults to 4096 bits and ECDSA to `p256`; a failure changes nothing and fires nothing |
| Requests.CamelCreateRsaKeypair | lib/pki/pki-member.js:85-91 | the camel family always asks for a 4096-bit RSA key and stores exactly the key pair it gets back |
| Requests.RevokedMemberRekeyed | lib/pki/child.js:142-143 | creating a key pair writes the private fields directly, so a revoked member gets a new key it cannot read back |
| Requests.KeySpecOf | lib/pki/child.js:217-221 | absent `key_args` default to an RSA key of 4096 bits and no password |
| Requests.KeyOptions | lib/pki/child.js:228 | the key options passed on always carry the given `key_password` as `password` |
| Requests.KeyStep | lib/pki/child.js:225-230 | a CSR reuses an existing private key and creates a key pair only when none is stored; a revoked member throws `revoked`; only the key fields can change |
| Requests.SnakeCsrInput | lib/pki/client.js:47-50 | a missing or `null` options argument (the third for a client, the second otherwise) throws a TypeError while it is destructured |
| Requests.CreateCsr | lib/pki/child.js:215-240 | `create_csr` builds the config first; it then signs the request with the member's key, clears the certificate, stores the CSR, name and subject, and fires `create-csr` after any key-pair event; a revoked member throws `revoked` |
| Requests.KeyKept | lib/pki/pki-server.js:48-60 | a member that already has a key keeps it: the CSR is made with that key and only `create-csr` fires |
| Requests.SecondRequestReusesKey | lib/pki/pki-client.js:40-53 | after one successful CSR the member has a key, and a second CSR reuses it |
| Requests.RevokedCannotRequest | lib/pki/child.js:225 | a revoked member cannot make a CSR, and the attempt changes nothing and fires nothing |
| Requests.ConfArgsCommonNameWins | lib/pki/child.js:223 | a `common_name` inside `conf_args` overrides the positional common name, which is used otherwise |
| Requests.ConfArgsEmailWins | lib/pki/client.js:49 | an `email` inside `conf_args` overrides the positional e-mail, which is used otherwise |
| Requests.CertTail | lib/pki/ca.js:332-341 | a self-signed certificate clears the CSR and stores the certificate, name and subject, firing `create-cert` last |
| Requests.SnakeCreateCert | lib/pki/ca.js:319-342 | `create_cert` defaults to 9999 days and RSA 4096; it signs the CA builder's config with the member's key, or a new key when none is stored; a revoked member throws `revoked`, and `null` options throw a TypeError |
| Requests.CamelCreateCert | lib/pki/pki-ca.js:233-247 | the camel `create_cert` always asks for 9999 days and an RSA key, because `conf_args` is an array and has no `days` |
| CaOps.Prepare | lib/pki/ca.js:364-392 | before a CA operation, a falsy CRL number or serial becomes "00" and a falsy database becomes ""; nothing else changes; a non-text ledger field throws a TypeError; the trimmed serial is reported, and the config is built from the temporary paths |
| CaOps.ReadBack | lib/pki/ca.js:390-392 | after the command the CA's three ledger fields hold the texts of the files as the run left them, and nothing else changes |
| CaOps.LedgerPathsInConfig | lib/pki/ca.js:380-386 | the config of a CA operation names the temporary serial, CRL-number, database and new-certificates paths, and uses `x509_extensions = v3_<ext>` exactly when an extension is named |
| CaOps.CamelLedgerPathsLost | lib/pki/pki-ca.js:285-290 | as written, the camel CA operation's config has undefined serial, CRL-number, database and new-certificates entries and no extension section |
| CaOps.SignTarget | lib/pki/ca.js:409-412 | signing takes a member as given; a serial text is searched among the children; anything else is a TypeError |
| CaOps.SignCsrForChild | lib/pki/ca.js:408-443 | signing needs a CA that holds a certificate and key and is not revoked. The signed member gets exactly the certificate the backend's `openssl ca` run returned for its request with `days ?? 9999`, and the CA's ledger fields become the files that run left. The call answers the trimmed serial read before the run and fires `sign-csr`. Only the CA and a member in the tree that was signed change: that member only in its certificate, the CA only in its ledger. A failure changes at most the CA's ledger |
| CaOps.SignRun | lib/pki/pki-ca.js:312-346 | a successful signing answers the CA's serial as it stood before the run; the member holds the certificate the backend returned and the CA the ledger it left; only those two change, in those fields; a failure fires nothing and changes at most the CA's ledger; a failed command leaves the reset ledger (`CaOps.FailedSignKeepsResetLedger`) |
| CaOps.SignApply | lib/pki/ca.js:388-442 | after the signing command the CA's ledger fields hold the files the run left; an empty reply throws and changes only the ledger; otherwise the member holds the returned certificate, and nothing else in the tree changes |
| CaOps.SignFinish | lib/pki/ca.js:437-442 | an empty reply from the signer is an error that changes nothing; otherwise the child holds exactly the new certificate, is not revoked, and is the only member that changed |
| CaOps.SignBySerialString | lib/pki/pki-ca.js:313-316 | the corrected search finds a child by its serial text, but as written signing by serial text always throws a TypeError and changes nothing |
| CaOps.SearchTarget | lib/pki/ca.js:409-412 | signing by serial finds exactly the child the `{serial}` lookup finds, and throws a TypeError when the lookup finds none |
| CaOps.AddChild | lib/pki/ca.js:101-109 | `#add_child` stores the child under its serial and fires `add-child`; the CA's own fields and its other children, its ancestors' own fields and every other branch are as they were |
| CaOps.SnakeAddArgs | lib/pki/ca.js:129-140 | `add_*` takes every argument from an object first argument that has `common_name`, and otherwise defaults `days` to 9999; `null` options throw a TypeError, and so does an object first argument with an own `hasOwnProperty` key (the test calls it) |
| CaOps.AddFresh | lib/pki/ca.js:141-157 | the new member's request is signed and the member becomes the CA's child under the trimmed serial the CA held before the signing, holding the certificate the backend returned; the CA holds the ledger the run left; the CA's other children and own fields, its ancestors and every other branch are as they were; the events are `sign-csr`, `add-child` and `add-<kind>`; a CSR failure changes nothing |
| CaOps.AddedAfterSigning | lib/pki/ca.js:141-157 | a signing of a member outside the tree followed by storing it as a child leaves exactly what an `add_*` promises |
| CaOps.OnlyAtChangedKeeps | lib/pki/ca.js:364-406 | a CA operation that rewrites only the CA keeps every other branch and its ancestors' own fields |
| CaOps.AddSigned | lib/pki/pki-ca.js:126-134 | a signed child is stored unchanged under the serial the signing answered, the rest of the CA and of the tree unchanged, and the `add-child` and `add-<kind>` events follow the signing events |
| CaOps.SnakeAdd | lib/pki/ca.js:223-251 | a snake `add_server`, `add_client` or `add_ca` either adds one new child of that kind under the CA's serial before the signing, holding the certificate the backend returned for the request it made with the given arguments, with the three events and nothing else changed but the CA's ledger; or it fails without adding one and fires nothing |
| CaOps.CamelAdd | lib/pki/pki-ca.js:117-174 | a camel `add_*` either adds one new child of that kind under the CA's serial before the signing, holding the certificate the backend returned for `days` from the last argument (9999 for `add_ca`), and nothing else changed but the CA's ledger; or it fails without adding one; a config that cannot be built leaves the tree unchanged |
| CaOps.SnakeAddClientAsWrittenFails | lib/pki/ca.js:190 | as written, `add_client` always throws a TypeError and changes nothing, because the options land in the e-mail parameter of `create_csr` |
| CaOps.SnakeAddClientCorrected | lib/pki/client.js:47-50 | with the options passed third, the client CSR reads its key arguments and takes its e-mail from `conf_args` |
| CaOps.RevokeTarget | lib/pki/ca.js:445-454 | a falsy search argument is a RangeError in the snake family; a search that finds no child is a RangeError |
| CaOps.Revoke | lib/pki/ca.js:445-479 | revoking needs a CA that is not revoked. A member given directly comes out as itself with `is_revoked` true; a member in the tree, given or found by the search (whose address the contract names), is the only member that changes besides the CA, and only in `is_revoked`; the CA's ledger becomes the files the backend's run left and its cached CRL is dropped; `revoke` fires. A child that is already revoked throws `revoked` and changes nothing; a failure changes at most the CA's ledger |
| CaOps.RevokeRun | lib/pki/pki-ca.js:348-378 | a successful revocation leaves the child as it was with `is_revoked` true, the CA with the ledger the backend's run left and no cached CRL, and nothing else changed; a failure changes at most the CA's ledger; a failed command leaves the reset ledger (`CaOps.FailedRevokeKeepsResetLedger`) |
| CaOps.RevokeApply | lib/pki/ca.js:388-392 | after the revocation command the CA's ledger fields hold the files the run left, the member is revoked, the CA's list is dropped, and nothing else in the tree changes |
| CaOps.RevokeAfterReadBack | lib/pki/ca.js:475-476 | a revocation after the ledger read-back changes, seen from before it, only the revoked member and the CA |
| CaOps.RevokeFinish | lib/pki/ca.js:475-477 | after the revocation command the child is revoked, the CA's list is dropped, `revoke` fires, the CA's ledger is untouched, and no other member changes |
| CaOps.RevokeInTree | lib/pki/ca.js:475-476 | revoking a member of the tree sets its `is_revoked` and drops the CA's list, and changes no other member or field |
| CaOps.RevokePuts | lib/pki/ca.js:475-476 | the two writes of a revocation in the tree touch only the revoked member and the CA |
| CaOps.RevokeTwice | lib/pki/pki-ca.js:355-357 | revoking the same child a second time throws `revoked`, because its certificate can no longer be read |
| CaOps.Inspect | lib/openssl/utils/inspect-crl.js:38-50 | inspecting a CRL parses exactly the text the `openssl crl` command prints, and passes a command failure on |
| CaOps.NotExpired | lib/pki/ca.js:492-494 | a cached CRL is still valid exactly when its `next_update` date exists and the current time is not after it; a missing or unparsable date counts as expired |
| CaOps.GetCrl | lib/pki/ca.js:488-516 | `get_crl` returns the cached CRL unchanged and silently while it is valid and `force` is not set; otherwise it issues a new one; the CA always ends holding the CRL it returns |
| CaOps.IssueCrl | lib/pki/pki-ca.js:387-416 | issuing a CRL answers exactly the list the backend's run returned, stores it on the CA, gives the CA the ledger that run left, and fires `get-crl`; nothing else in the tree changes |
| CaOps.GetCrlInfo | lib/pki/ca.js:481-486 | `get_crl_info` inspects the cached CRL without changing anything; when no CRL is cached, it first issues one |
| CaOps.RevokeThenFreshCrl | lib/pki/ca.js:476 | after a revocation the next `get_crl` issues a new CRL rather than returning a stale one |
| CaOps.IssuedCrlIsCached | lib/pki/pki-ca.js:388-396 | a CRL that is still valid is returned again by the next unforced `get_crl`, with no event and no change |
| CaOps.SignDetachedTouchesOnlyLedger | lib/pki/pki-ca.js:269-310 | signing a member given directly changes only the CA's ledger fields, and no other member in the tree |
| CaOps.IssueCrlTouchesOnlyCa | lib/pki/ca.js:500-514 | issuing a CRL leaves every member that is not the CA or one of its ancestors unchanged |
| CaOps.OnlyAtChangedElsewhere | lib/pki/ca.js:364-406 | a CA operation that rewrites only the CA leaves every other branch unchanged and the ancestors' own fields unchanged |
| CaOps.FailedRunKeepsResetLedger | lib/pki/ca.js:365-374 | when the CRL command fails, the defaults written into the ledger fields before the run stay in place, and nothing fires |
| CaOps.FailedSignKeepsResetLedger | lib/pki/ca.js:365-374 | a signing fails with a backend error exactly when the preparation succeeded and the command failed; then nothing fires and the CA's ledger fields keep the reset `"00"`, `"00"`, `""` (or their earlier truthy values), since the bracket has no `finally` |
| CaOps.FailedRevokeKeepsResetLedger | lib/pki/ca.js:365-374 | a revocation fails with a backend error exactly when the preparation succeeded, the CA is not revoked and the command failed; then nothing fires and the CA's ledger fields keep the reset values |
| ConfData.CreateConfData | lib/create-conf-data/create-conf-data.js:8-24 | the config is a `Buffer` unless `out_buffer` is given falsy, and either way holds the same INI text |
| ConfData.EntryLines | lib/create-conf-data/create-conf-data.js:13-20 | every entry renders as `key = value`, with an array value joined by commas |
| ConfData.SectionAt | lib/create-conf-data/create-conf-data.js:11-22 | each section appears in the text, in order, as its `[name]` header, its entry lines and a blank line |
| ConfData.LineCount | lib/create-conf-data/create-conf-data.js:10-22 | the text has three header lines plus, for each section, its entries and two more lines |
| ConfData.SplitConfText | lib/create-conf-data/create-conf-data.js:10-23 | when no name or value contains a line break, splitting the text at line breaks gives back exactly the lines written |
| JsonText.StringifyNoNewline | lib/create-conf-data/create-conf-data.js:10 | the `JSON.stringify` of the sections in the header comment never breaks the line |
| Subject.Pairs | lib/create-conf-data/utils.js:24-26 | every field renders as `key=escaped value`, in field order |
| Subject.PartsOfSubject | lib/create-conf-data/utils.js:17-38 | a non-empty subject built by `obj2subject` splits, trims and filters back into exactly the `key=value` pairs it was joined from |
| Subject.SubjectRoundTrip | lib/create-conf-data/utils.js:17-38 | `subject2obj("/" + obj2subject(o))` gives back `o` for every object that meets three conditions. Its keys are distinct and non-empty, hold no `/` or `=`, do not start with white space, and are not `__proto__`. Its values are non-empty texts not ending in a space |
| Subject.FoldPairs | lib/create-conf-data/utils.js:33-37 | reading the rendered pairs one by one rebuilds the object field by field |
| Subject.SubjectValueToObj | lib/create-conf-data/utils.js:29-30 | `subject2obj` needs a text, and throws on anything else |
| Subject.GetSubject | lib/create-conf-data/utils.js:41-48 | `get_subject` succeeds exactly when the main section and the section it names as `distinguished_name` exist, and its answer starts with `/` |
| Subject.GetSubjectRoundTrip | lib/create-conf-data/utils.js:41-48 | parsing the subject text gives back the distinguished-name section |
| ConfArgs.ReadCaStyle | lib/create-conf-data/for/ca.js:40-57 | in the CA-style builders a truthy `common_name` on the first argument makes it the source of every field, and otherwise the first argument is the common name; a nullish first argument or `null` options throw a TypeError |
| ConfArgs.CaObjectFormIgnoresOptions | lib/create-conf-data/for/ca-csr.js:15-26 | in the object form the second argument plays no part |
| ConfArgs.CaStyleDn | lib/create-conf-data/for/ca.js:52-72 | the distinguished name lists C, ST, L, O, OU and CN in that order; every field except CN has a non-nullish value, defaulted by `??` when missing |
| ConfArgs.Listed | lib/create-conf-data/for/ca.js:88-91 | alternative names are numbered `DNS.1`, `DNS.2`, … in the order given |
| ConfArgs.NumberedIsListed | lib/create-conf-data/for/server.js:54-57 | the `reduce` that numbers the alternative names gives exactly the listed entries |
| ConfArgs.NumberedKeyInjective | lib/create-conf-data/for/client.js:59-62 | distinct positions get distinct numbered keys |
| ConfArgs.Finish | lib/create-conf-data/for/ca.js:93-97 | a builder answers the rendered config, the common name as `name`, and the subject read from the `[req]` section; when the name section's fields survive the subject round trip, the subject text parses back to that section |
| ConfArgs.MergedReadIsSpread | lib/create-conf-data/for/server.js:19-22 | in the object form, reading a field reads `{...options, ...common_name}` |
| CaConf.Build | lib/create-conf-data/for/ca.js:40-97 | the CA builder succeeds exactly when its arguments can be read; every section it refers to exists, and the subject's CN is the returned name |
| CaConf.CaUrls | lib/create-conf-data/for/ca.js:80-85 | `v3_ca` has `crlDistributionPoints = URI:<crl_url>` exactly when a CRL URL is given, and `authorityInfoAccess = OCSP;URI:<ocsp_url>` exactly when an OCSP URL is given |
| CaConf.CaAltNames | lib/create-conf-data/for/ca.js:86-92 | an array of alternative names adds `subjectAltName = @alt_names` and an `alt_names` section listing them; without an array neither appears |
| CaConf.CaDefaults | lib/create-conf-data/for/ca.js:52-57 | called with only a common name, the builder answers a `Buffer` and fills in US / State / City / My Organization / My Organization |
| CaConf.CaResolve | lib/create-conf-data/for/ca.js:59-92 | every cross-section reference in the CA config names a section that exists |
| CaCsrConf.Build | lib/create-conf-data/for/ca-csr.js:15-70 | the CA-CSR builder's config refers only to sections it has, and the subject's CN is the returned name |
| CaCsrConf.CsrUrlsThrow | lib/create-conf-data/for/ca-csr.js:53-58 | a CRL or OCSP URL makes the CA-CSR builder throw a TypeError, because it writes into a `v3_ca` section this builder never creates |
| CaCsrConf.CsrAltNames | lib/create-conf-data/for/ca-csr.js:59-65 | an array of alternative names adds `subjectAltName = @alt_names` to `req_ext` and an `alt_names` section listing them |
| SigningConf.Build | lib/create-conf-data/for/digital-signature.js:13-52 | the code-signing builder succeeds exactly when its arguments can be read, and its subject's CN is the returned name |
| SigningConf.SigningNoAltNames | lib/create-conf-data/for/digital-signature.js:29-47 | the code-signing config has exactly the sections `req`, `req_distinguished_name` and `v3_code_signing`, and never alternative names |
| ServerConf.ReadServer | lib/create-conf-data/for/server.js:18-31 | the server builder takes the common name from the first argument, or from its `common_name` in the object form; `null` options throw a TypeError |
| ServerConf.Build | lib/create-conf-data/for/server.js:18-64 | the server builder succeeds exactly when its arguments can be read; its references resolve, and the subject's CN is the returned name |
| ServerConf.ServerDefaults | lib/create-conf-data/for/server.js:23-31 | with no options the server fields default to US / WA / Seattle / Contoso Corporation / Sales Department, with an empty alternative-name array and `out_buffer` true |
| ServerConf.ServerKeepsNull | lib/create-conf-data/for/server.js:23-31 | a destructuring default does not replace an explicit `null` |
| ServerConf.ServerSpreadWins | lib/create-conf-data/for/server.js:19-22 | in the object form the first argument's own fields override the options |
| ServerConf.ServerAltNames | lib/create-conf-data/for/server.js:52-58 | an array of alternative names adds `subjectAltName` and the numbered `alt_names` section |
| ClientConf.ReadClient | lib/create-conf-data/for/client.js:16-33 | the client builder insists on a non-empty text common name and at least one e-mail address |
| ClientConf.Build | lib/create-conf-data/for/client.js:16-68 | the client builder succeeds exactly when its arguments can be read; its references resolve, and the subject's `commonName` is the returned name |
| ClientConf.ClientEmails | lib/create-conf-data/for/client.js:41-62 | the first e-mail is the subject's `emailAddress`, and all of them are listed as `email.1`, `email.2`, … in `alt_names` |
| ClientConf.ClientRefuses | lib/create-conf-data/for/client.js:29-32 | an empty or non-text common name, or a missing e-mail, makes the builder throw |
| CaOpsConf.X509Section | lib/create-conf-data/for/ca-operations.js:27 | the extension section is `v3_<ext>` exactly for the names `client`, `ca` and `server`, and absent for any other name |
| CaOpsConf.ReadOps | lib/create-conf-data/for/ca-operations.js:13-25 | an object first argument that has `ext` supplies the extension and the four ledger paths; otherwise they are the positional arguments; `default_md` is never left undefined; it defaults to sha256 and keeps an explicit `null` |
| CaOpsConf.Build | lib/create-conf-data/for/ca-operations.js:13-87 | the CA-operations config has the sections `ca`, `my_ca`, `policy_match`, `v3_ca`, `v3_client` and `v3_server`, in that order; `my_ca` carries the given ledger paths and digest, and `x509_extensions` exactly when the extension is a known one; every reference resolves |
| CaOpsConf.ObjectWithoutExt | lib/create-conf-data/for/ca-operations.js:14-21 | an object argument without `ext` is not read as the object form, so all four ledger entries come out undefined |
| CaOpsConf.ObjectWithExt | lib/create-conf-data/for/ca-operations.js:14-43 | an object argument with a text `ext` puts its ledger paths into `my_ca` |
| CrlOutput.MatchLine | lib/openssl/utils/inspect-crl.js:11-14 | a line matches exactly when it contains `=` and no line terminator; the key is the trimmed text before the first `=` and the value is the trimmed rest |
| CrlOutput.Convert | lib/openssl/utils/inspect-crl.js:15-20 | `nextUpdate` and `lastUpdate` become dates, `crlNumber` is parsed as hex, and every other value stays text |
| CrlOutput.Renamed | lib/openssl/utils/inspect-crl.js:23-30 | the three converted keys are renamed to `next_update`, `last_update` and `crl_number`; the other keys are kept |
| CrlOutput.AssignLookup | lib/openssl/utils/inspect-crl.js:9-22 | each key of the parsed result holds the value of the last line that set it |
| CrlOutput.ParsedFields | lib/openssl/utils/inspect-crl.js:7-31 | each field of `parse_crl_output` under its renamed key is the converted value of the last line that set it |
| CrlOutput.ParseCrlOutput | lib/openssl/utils/inspect-crl.js:7-31 | parsing gives up exactly when some line sets a key inherited by every object |
| Base64.DecodeEncode | lib/pki/child.js:46 | decoding the base64 text a buffer is written as gives back the buffer |
| Utf8.DecodeEncode | lib/pki/child.js:124 | a text turned into a UTF-8 buffer decodes back to the same text |
| Percent.UnescapeMyEsc | lib/create-conf-data/utils.js:18-22 | `querystring.unescape` undoes the subject escaping, which keeps `@` and space as they are |
| Text.SplitJoin | lib/create-conf-data/utils.js:26-32 | joining parts with a separator they do not contain, then splitting there, gives back the parts |
| Text.ParseIntHex | lib/pki/ca.js:270 | `parseInt(s, 16)` is NaN exactly when no hex digit follows the leading white space, the sign and a `0x` prefix |
| Text.ObjectTextIsNaN | lib/pki/ca.js:282 | the text of an object, `[object Object]`, parses as NaN |

## Left out

- File I/O: the temporary ledger files, the new-certificates directory and their removal are not modelled. A CA operation is handed `TempPaths`, and the `openssl ca` run reports the ledger files as it left them.
- The OpenSSL command wrappers: lib/openssl/ is not part of this model. Each command is a function value of `Backend.Openssl`, and its failure is an `Err` reply.
- Dates: `new Date()` is the parameter `Env.now`, and `new Date(text)` is `Env.parseDate`. No calendar arithmetic is modelled.
- Asynchrony: `async`/`await` is not modelled. Each operation runs to completion, and its events are returned as a log rather than delivered to listeners. Registering listeners (`on_updated`) is therefore outside the model.
- `console.warn` output, `toString` (plain `JSON.stringify` of the record), `from`, and reading a record given as JSON text are not modelled.
- `ensure_conf` and lib/pki/utils.js are not modelled: they read the file system.
- The index files, the example script and the `openssl` shell wrapper are not modelled: they only wire the core together.
- The `#path_cached` memo of `path` is not modelled. A member can move: `AddSigned` stores a member that was signed while detached. But no operation of this model reads `path` before the member is stored under its CA, so the memo always equals a fresh computation.
- `instanceof Child` checks are always true here, because every child is a `Member`. The "must be an instance" errors cannot arise.
- `deserialize_buffer` given a `Buffer` is not modelled: records here hold no buffers. The unreachable `return Buffer` branch at lib/pki/child.js:126 is therefore not represented.
- Numbers are unbounded integers: precision limits above 2^53 are not modelled, and a non-integer number cannot occur.
- `toLowerCase` is modelled for ASCII letters only. `Requests.AlgorithmOf` does not model non-ASCII case mappings, because the accepted names are ASCII.
- CaOps.AddChild: a child whose serial is `__proto__` yields an "unmodelled" error. In JavaScript that assignment would replace the children object's prototype.
- CaOps.NotExpired: a `next_update` that is not a converted date yields an "unmodelled" error. JavaScript would compare the time with a text.
- ConfArgs.ReadCaStyle: an object where a primitive or a text array is expected yields an "unmodelled" error. Examples are the object form with a falsy `common_name`, and an object-valued `country`. JavaScript would use the object's text.
- CrlOutput.ParseCrlOutput: a line whose key is a property every object inherits (such as `constructor` or `__proto__`) yields an error. JavaScript's `in` and prototype lookups would treat it specially.
- CaOpsConf.X509Section: an extension name that every object inherits (such as `toString`) yields an error. JavaScript would look up an inherited property.
- ClientConf.ReadClient: an object given as the e-mail address yields an "unmodelled" error.
- Records.FromJson: a record given as JSON text yields an "unmodelled" error. JSON parsing is not modelled.
- CaOps.Revoke: `revoke` answers `undefined` in both families. The model answers the revoked member instead, so that the contract can say what became of it.
- Records.SnakeDeserializeAsWritten: texts are sequences of Unicode characters, not of UTF-16 code units, so `slice(7)` counts characters. A lone surrogate cannot occur.
- Percent.QsEscape: a lone surrogate, which `querystring.escape` rejects, cannot occur, because texts are sequences of Unicode characters.
- JsonText.Quote: `JSON.stringify` is modelled on Unicode characters; the escaping of a lone surrogate is not modelled, because one cannot occur.
- Utf8.Encode: `Buffer.from(text, 'utf8')` is modelled on Unicode characters; the replacement of a lone surrogate is not modelled, because one cannot occur.
- JsObject.Value: an array value holds texts only. An array of numbers or objects in a config argument is not modelled.
- ServerConf.ReadServer: an object-valued field (a `country` that is an object, say) yields an "unmodelled" error. JavaScript would render the object's text.
- CaOpsConf.ReadOps: an object-valued ledger path or digest yields an "unmodelled" error. JavaScript would render the object's text.
- ConfArgs.SpreadForm: an object with an own `hasOwnProperty` key counts as any other object here. In JavaScript `x.hasOwnProperty(key)` would then call that value, and throw a TypeError unless it is a function.
- Requests.SnakeCsrInput: a `conf_args` object with an own `__proto__` field yields an "unmodelled" error. `Object.assign` would set the prototype.

## Findings

Each row pairs a member that models the code as written with the corrected
definition. The record readers, the CA operations, the child lookup and
`add_client` take the `Code` parameter, and the lemmas named below state
what each choice gives.

| source | as written | input that shows it | evidently intended | confidence | as-written member | corrected member |
|---|---|---|---|---|---|---|
| lib/pki/pki-ca.js:285-290 | the camel CA operation passes an object without `ext` to the CA-operations builder. The builder then does not read the object form, so the ledger paths are lost | any camel `sign_csr_for_child`, `revoke` or `get_crl` | pass the object form, so the temporary ledger paths reach `my_ca` | not executed | CaOps.CamelLedgerPathsLost | CaOps.LedgerPathsInConfig |
| lib/pki/ca.js:190 | `add_client` calls `client.create_csr(common_name, {key_args, conf_args})`. The options land in the `email` parameter, and destructuring the missing third argument throws | any `add_client("alice", {conf_args: {email: "a@x"}})` | pass the options as the third argument, with the e-mail taken from `conf_args` | not executed | CaOps.SnakeAddClientAsWrittenFails | CaOps.SnakeAddClientCorrected |
| lib/pki/child.js:121 | `typeof data === 'string' \|\| data.startsWith('base64:')` takes every text as base64, and throws on `null`, so the snake `fromJSON` cannot read the record of a CA whose certificate or keys are still `null` | the record of a CA just constructed, or a CA record whose `cert` is the plain text `"abc"` | `&&` instead of `\|\|`, so that plain texts read as UTF-8 and `null` reads as no buffer | not executed | Records.FreshCaRecordThrows | Records.RoundTripCorrected |
| lib/pki/ca.js:282 | with `{serial}`, `get_child` parses `arguments[0]`, the object itself, instead of `serial`. The object's text is NaN, so nothing is found; the same holds at lib/pki/pki-ca.js:205 | `sign_csr_for_child("01")` on a CA whose child has serial `01` | `parseInt(serial, 16)` | not executed | ChildLookup.GetChildAsWritten | ChildLookup.SerialFindsChild |
