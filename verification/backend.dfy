/**
  What the PKI classes ask of the world outside them: the `openssl` commands of
  lib/openssl/ (which is not part of this model), the ledger files an
  `openssl ca` run reads and rewrites, the temporary paths the CA hands to it,
  and the clock. Each command is a total function of its inputs; an `Err`
  reply is a failed command.
*/
module Backend {
  import opened Wrappers
  import opened JsObject
  import opened ConfData

  /** `{private_key, public_key}`, as the key-pair commands resolve. */
  datatype KeyPair = KeyPair(privateKey: Bytes, publicKey: Bytes)

  /** The text of the three ledger files of a CA: the CRL number, the serial and the index database. */
  datatype Ledger = Ledger(crlnumber: string, serial: string, database: string)

  /** The temporary files and the new-certificates directory that one CA operation uses. */
  datatype TempPaths = TempPaths(crlnumber: string, serial: string, database: string, newCertsDir: string)

  /**
    What one `openssl ca` run is given: the rendered config, the CA's
    certificate, key and key password, and the ledger files as written
    before the run. Revoking and issuing a revocation list do not check the
    certificate and key first, so either may be missing (`null`).
  */
  datatype CaRun = CaRun(config: ConfOut, caCert: Option<Bytes>, caKey: Option<Bytes>, caKeyPassword: Json, ledger: Ledger)

  /**
    The commands. `signCsr` and `genCrl` reply with the certificate or CRL
    they produced (`None` when the command printed nothing) together with the
    ledger files as the run left them; `revokeCert` replies with the ledger.
  */
  datatype Openssl = Openssl(
    rsaKeypair: (Json, Json) -> Result<KeyPair, string>,
    ecdsaKeypair: (Json, Json) -> Result<KeyPair, string>,
    createCsr: (Bytes, ConfOut) -> Result<Bytes, string>,
    createCert: (Bytes, ConfOut, Json) -> Result<Bytes, string>,
    signCsr: (Bytes, CaRun, Json) -> Result<(Option<Bytes>, Ledger), string>,
    revokeCert: (Bytes, CaRun) -> Result<Ledger, string>,
    genCrl: CaRun -> Result<(Option<Bytes>, Ledger), string>,
    inspectCrl: Bytes -> Result<string, string>,
    exportPkcs12: (Bytes, Bytes, Json, bool) -> Result<Bytes, string>
  )

  /**
    Everything a PKI operation reads from outside: the commands, the paths
    the next CA operation will use, the current time in milliseconds, and
    `new Date(text)` as milliseconds (`None` for an invalid date).
  */
  datatype Env = Env(openssl: Openssl, paths: TempPaths, now: int, parseDate: string -> Option<int>)
}
