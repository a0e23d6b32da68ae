/**
 An abstract JSON Web Token codec (RFC 7519) standing in for `jsonwebtoken`.
 A token value stands for its compact string: two tokens are the same string
 exactly when they are equal values, so comparing a presented token with a
 stored one is string equality. Signing is deterministic, as HMAC signing of
 the same claims at the same second is.
 */
module Jwt {
  import opened Base

  /** Where the principal sits in the payload: `{user: {_id, email}}` (v2) or `{user_id, email}` (v1). */
  datatype Subject = Nested(id: ObjectId, email: string) | TopLevel(id: ObjectId, email: string)

  /** The payload: the optional `type` claim and the principal reference. */
  datatype Claims = Claims(tag: Option<string>, subject: Subject)

  /** Whether the string parses and carries a signature made with the process secret. */
  datatype Integrity = Signed | Malformed | BadSignature

  /** A compact token: its claims, its `exp` claim in seconds, and its integrity. */
  datatype Token = Token(claims: Claims, exp: nat, integrity: Integrity)

  /** The outcome of `jwt.verify`. */
  datatype Decoded = Ok(claims: Claims) | Expired | Invalid(reason: string)

  const HourSeconds: nat := 60 * 60

  /** `expiresIn: "1h"` and `expiresIn: "12h"`. */
  const SessionTtl: nat := HourSeconds
  const VerificationTtl: nat := 12 * HourSeconds

  /** The error message `jwt.verify` throws for an expired token. */
  const ExpiredMessage := "jwt expired"

  /**
   `jwt.verify` at clock `now` (seconds): the signature is checked first, then the
   expiry claim, which rejects a token on or after its `exp` instant
   (section 4.1.4 of RFC 7519).
   */
  function Verify(t: Token, now: nat): (r: Decoded)
    ensures r.Ok? ==> r.claims == t.claims && now < t.exp
    ensures r == Expired ==> t.integrity == Signed && t.exp <= now
    ensures r.Invalid? <==> t.integrity != Signed
    ensures r.Invalid? ==> r.reason != ExpiredMessage
  {
    match t.integrity
    case Malformed => Invalid("jwt malformed")
    case BadSignature => Invalid("invalid signature")
    case Signed => if now >= t.exp then Expired else Ok(t.claims)
  }

  /** The message a failed `jwt.verify` throws. */
  function FailureMessage(d: Decoded): (m: string)
    requires !d.Ok?
    ensures d == Expired ==> m == ExpiredMessage
    ensures d.Invalid? ==> m == d.reason
  {
    match d
    case Expired => ExpiredMessage
    case Invalid(reason) => reason
  }

  /** `jwt.sign(claims, secret, {expiresIn: ttl})` at clock `now`. */
  function Sign(claims: Claims, ttl: nat, now: nat): (t: Token)
    ensures t.integrity == Signed
  {
    Token(claims, now + ttl, Signed)
  }

  /** A signed token verifies to exactly its claims until its lifetime has elapsed, and is expired from then on. */
  lemma SignVerifyRoundTrip(claims: Claims, ttl: nat, issued: nat, at: nat)
    ensures issued <= at < issued + ttl ==> Verify(Sign(claims, ttl, issued), at) == Ok(claims)
    ensures at >= issued + ttl ==> Verify(Sign(claims, ttl, issued), at) == Expired
  {
  }

  /** Two tokens signed with the same claims and TTL are the same string iff they were signed at the same second. */
  lemma SignInjectiveInTime(claims: Claims, ttl: nat, t1: nat, t2: nat)
    ensures Sign(claims, ttl, t1) == Sign(claims, ttl, t2) <==> t1 == t2
  {
  }
}
