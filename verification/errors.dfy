/** What the modelled code throws, one case per kind of `throw` site. */
module Errors {

  datatype Error =
    /** `throw {error: 'revoked'}` from a revocation-guarded accessor. */
    | Revoked
    /** A `TypeError`, thrown by the code or by the language (a property read on `null`, a missing method). */
    | TypeErr(msg: string)
    /** A `RangeError`. */
    | RangeErr(msg: string)
    /** A plain `Error` thrown by the code. */
    | Thrown(msg: string)
    /** A failure reported by the `openssl` command. */
    | BackendErr(msg: string)
    /** A path of the code the model does not follow (named under "Left out"). */
    | Unmodelled(msg: string)
}
