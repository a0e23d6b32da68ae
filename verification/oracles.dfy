/**
 The library behaviour the service delegates to, taken as parameters:
 express-validator's `isEmail` and `normalizeEmail`, and bcrypt's `hash`
 and `compare`. Salts and cost factors are not modelled.
 */
module Oracles {

  /** A bcrypt digest; a distinct type, so a plaintext can never be stored where a digest belongs. */
  datatype Digest = Digest(value: string)

  datatype Env = Env(
    isEmail: string -> bool,
    normalizeEmail: string -> string,
    hash: string -> Digest,
    compare: (string, Digest) -> bool
  )

  /** bcrypt's contract: a password matches its own digest. */
  ghost predicate HashRoundTrip(env: Env) {
    forall p :: env.compare(p, env.hash(p))
  }

  /** validator.js' contract that the empty string is not an e-mail address. */
  predicate RejectsEmptyEmail(env: Env) {
    !env.isEmail("")
  }
}
