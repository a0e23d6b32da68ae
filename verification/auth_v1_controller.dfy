/**
 The v1 handlers (`auth/v1/auth.controller.js`), answering through the
 `response.success` envelope. A handler whose failure reaches
 `normalize_system_error_response` without the response object throws
 again inside its own `catch`, and the request is left unanswered.
 */
module AuthV1Controller {
  import opened Base
  import opened Jwt
  import opened Oracles
  import opened Records
  import opened Envelopes
  import opened AuthV1Middleware

  /** The v1 verification token: `{type: "email_verification", user_id, email}` for twelve hours. */
  function V1VerificationToken(u: User, now: nat): (t: Token)
    ensures t.claims == Claims(Some(V1VerificationTag), TopLevel(u.id, u.email))
    ensures Verify(t, now).Ok? && t.exp == now + VerificationTtl
  {
    Sign(Claims(Some(V1VerificationTag), TopLevel(u.id, u.email)), VerificationTtl, now)
  }

  /** The v1 login token: `{user_id, email}` with no `type`, for one hour. */
  function V1SessionToken(u: User, now: nat): (t: Token)
    ensures t.claims == Claims(None, TopLevel(u.id, u.email))
    ensures Verify(t, now).Ok? && t.exp == now + SessionTtl
  {
    Sign(Claims(None, TopLevel(u.id, u.email)), SessionTtl, now)
  }

  /** The user record after a fresh verification token is stored on it. */
  function WithFreshToken(u: User, now: nat): (v: User)
    ensures v.verificationToken == Some(V1VerificationToken(u, now))
    ensures v.(verificationToken := u.verificationToken) == u
  {
    u.(verificationToken := Some(V1VerificationToken(u, now)))
  }

  /**
   `send_verification_email`: look the user up by the request's e-mail, store
   a fresh twelve-hour token on the record (the save is not awaited, and with
   an unchanged e-mail it cannot fail) and mail the link. It answers only on
   failure, with the generic 500; a missing user is such a failure.
   */
  function SendVerificationEmail(d: Directory, email: Option<string>, now: nat, mailDelivered: bool): (r: Exchange)
    ensures r.reply == NoReply || r.reply == InternalErrorResponse()
    ensures email.None? || !EmailTaken(d, email.value) ==> r == Exchange(InternalErrorResponse(), d)
    ensures email.Some? && EmailTaken(d, email.value) ==>
      && (r.reply == NoReply <==> mailDelivered)
      && (var u := FindByEmail(d, email.value).value;
          r.users == d[u.id := WithFreshToken(u, now)])
  {
    var found := if email.None? then None else FindByEmail(d, email.value);
    match found
    case None => Exchange(InternalErrorResponse(), d)
    case Some(u) =>
      UpdateSameEmailSucceeds(d, WithFreshToken(u, now));
      var d' := Update(d, WithFreshToken(u, now)).value;
      Exchange(if mailDelivered then NoReply else InternalErrorResponse(), d')
  }

  /** The document `register_user` saves. */
  function V1NewUser(env: Env, reg: V1Registration, id: ObjectId): (u: User)
    ensures u.id == id && u.email == reg.email && u.password == env.hash(reg.password) && !u.isVerified
  {
    NewUser(id, reg.firstName, reg.lastName, reg.email, env.hash(reg.password))
  }

  /**
   `register_user`: save the user, then send the verification e-mail. A failed
   save leaves the request unanswered; a failed mail is answered with the
   generic 500, though the user and its token are already stored.
   */
  function RegisterUser(env: Env, d: Directory, reg: V1Registration, freshId: ObjectId, now: nat, mailDelivered: bool): (r: Exchange)
    ensures Create(d, V1NewUser(env, reg, freshId)).None? ==> r == Exchange(NoReply, d)
    ensures Create(d, V1NewUser(env, reg, freshId)).Some? ==>
      && r.users.Keys == d.Keys + {freshId}
      && (forall k :: k in d ==> r.users[k] == d[k])
      && r.users[freshId] == WithFreshToken(V1NewUser(env, reg, freshId), now)
      && (mailDelivered ==>
            r.reply == SuccessEnvelope(Some(NewAccount(reg.firstName, reg.lastName, reg.email)), "User registered!", 201))
      && (!mailDelivered ==> r.reply == InternalErrorResponse())
    ensures Answered(r.reply, 201) <==> Create(d, V1NewUser(env, reg, freshId)).Some? && mailDelivered
    ensures Answered(r.reply, 201) ==>
      && freshId !in d && freshId in r.users
      && r.users[freshId].email == reg.email && r.users[freshId].password == env.hash(reg.password)
      && !r.users[freshId].isVerified
  {
    var u := V1NewUser(env, reg, freshId);
    match Create(d, u)
    case None => Exchange(NoReply, d)
    case Some(d1) =>
      assert FindByEmail(d1, u.email) == Some(u);
      var sent := SendVerificationEmail(d1, Some(u.email), now, mailDelivered);
      if sent.reply == NoReply then
        Exchange(SuccessEnvelope(Some(NewAccount(reg.firstName, reg.lastName, reg.email)), "User registered!", 201), sent.users)
      else sent
  }

  /** `log_in_user`: sign the login token and set it as the `nanta-jsonwebtoken` cookie for one hour. */
  function LogInUser(d: Directory, email: string, now: nat): (r: Reply)
    ensures !EmailTaken(d, email) ==> r == InternalErrorResponse()
    ensures EmailTaken(d, email) ==>
      (var u := FindByEmail(d, email).value;
       && r.Reply? && r.status == 200
       && r.body == Success(SignedIn(u.id, u.firstName, u.lastName, u.email), "User logged in!")
       && r.cookies == [SetCookie(TokenCookie, TokenValue(V1SessionToken(u, now)), MaxAgeMs(OneHourMs))])
  {
    match FindByEmail(d, email)
    case None => InternalErrorResponse()
    case Some(u) =>
      var answer := SuccessEnvelope(Some(SignedIn(u.id, u.firstName, u.lastName, u.email)), "User logged in!", 200);
      answer.(cookies := [SetCookie(TokenCookie, TokenValue(V1SessionToken(u, now)), MaxAgeMs(OneHourMs))])
  }

  /** `log_out_user`: overwrite the cookie with an empty value that expired at the epoch. */
  function LogOutUser(): (r: Reply)
    ensures r == Reply(200, Success(NoData, "User logged out"), [SetCookie(TokenCookie, EmptyValue, ExpiresAtMs(0))])
  {
    Reply(200, Success(NoData, "User logged out"), [SetCookie(TokenCookie, EmptyValue, ExpiresAtMs(0))])
  }

  /** `get_user`: the account the token's e-mail names; when there is none the handler throws and never answers. */
  function GetUser(d: Directory, claims: Claims): (r: Reply)
    ensures r == NoReply <==> FindByClaimedEmail(d, claims.subject).None?
    ensures FindByClaimedEmail(d, claims.subject).Some? ==>
      (var u := FindByClaimedEmail(d, claims.subject).value;
       r == Reply(200, Success(Account(u.id, u.firstName, u.lastName, u.email, u.isVerified), "User authenticated!"), []))
  {
    match FindByClaimedEmail(d, claims.subject)
    case None => NoReply
    case Some(u) => SuccessEnvelope(Some(Account(u.id, u.firstName, u.lastName, u.email, u.isVerified)), "User authenticated!", 200)
  }

  /** `verify_email`: mark the gate's user verified, spend the token, and save. */
  function VerifyEmail(d: Directory, u: User): (r: Exchange)
    ensures Update(d, Verified(u)).Some? ==>
      r == Exchange(Reply(200, Success(NoData, "User email verified"), []), Update(d, Verified(u)).value)
    ensures Update(d, Verified(u)).None? ==> r == Exchange(NoReply, d)
  {
    match Update(d, Verified(u))
    case None => Exchange(NoReply, d)
    case Some(d') => Exchange(SuccessEnvelope(None, "User email verified", 200), d')
  }
}
