/**
 The v2 handlers (`auth/v2/auth.controller.js`). Each takes the users
 collection as it stands and answers with a reply and the collection as the
 request leaves it. Handlers that run after a gate receive what the gate
 handed on: the validated registration, the logged-in user, or the user a
 verification token names.
 */
module AuthV2Controller {
  import opened Base
  import opened Jwt
  import opened Oracles
  import opened Records
  import opened Envelopes
  import opened AuthV2Middleware

  /** The claims of the token mailed for e-mail verification. */
  function VerificationClaims(id: ObjectId, email: string): (c: Claims)
    ensures c.tag == Some(VerificationTag) && c.subject == Nested(id, email)
  {
    Claims(Some(VerificationTag), Nested(id, email))
  }

  /** The claims of a session token. */
  function SessionClaims(u: User): (c: Claims)
    ensures c.tag == Some(SessionTag) && c.subject == Nested(u.id, u.email)
  {
    Claims(Some(SessionTag), Nested(u.id, u.email))
  }

  /** The document `register_user` saves: digest in place of the password, a 12-hour verification token. */
  function RegisteredUser(env: Env, reg: Registration, id: ObjectId, now: nat): (u: User)
    ensures u.id == id && u.email == reg.email && u.firstName == reg.firstName && u.lastName == reg.lastName
    ensures u.password == env.hash(reg.password) && !u.isVerified
    ensures u.verificationToken == Some(Sign(VerificationClaims(id, reg.email), VerificationTtl, now))
  {
    NewUser(id, reg.firstName, reg.lastName, reg.email, env.hash(reg.password))
      .(verificationToken := Some(Sign(VerificationClaims(id, reg.email), VerificationTtl, now)))
  }

  /**
   `register_user`: hash the password, build the document under the id the
   driver assigns, sign its verification token and save it. A failed save goes
   to the application's error handler. The call that would mail the token is
   commented out in the handler, so no mail is sent.
   */
  function RegisterUser(env: Env, d: Directory, reg: Registration, freshId: ObjectId, now: nat): (r: Exchange)
    ensures r.reply == Reply(200, Text("User registered successfully!"), []) || (r.reply == ServerFault() && r.users == d)
    ensures Answered(r.reply, 200) <==>
      freshId !in d && !EmailTaken(d, reg.email) && RequiredPresent(RegisteredUser(env, reg, freshId, now))
    ensures Answered(r.reply, 200) ==>
      && r.users.Keys == d.Keys + {freshId}
      && r.users[freshId] == RegisteredUser(env, reg, freshId, now)
      && (forall k :: k in d ==> r.users[k] == d[k])
  {
    match Create(d, RegisteredUser(env, reg, freshId, now))
    case None => Exchange(ServerFault(), d)
    case Some(d') => Exchange(Reply(200, Text("User registered successfully!"), []), d')
  }

  /** `initialize_session_cookie`: the session token under `nanta-session`, for one hour. */
  function InitializeSessionCookie(t: Token): (w: CookieWrite)
    ensures w.name == SessionCookie && w.value == TokenValue(t) && w.life == MaxAgeMs(OneHourMs)
  {
    SetCookie(SessionCookie, TokenValue(t), MaxAgeMs(OneHourMs))
  }

  /**
   `login_user`: sign a one-hour session token for the user the login gate
   found, set it as the session cookie and also return it, with the user's
   summary, in the body.
   */
  function LoginUser(u: User, now: nat): (r: Reply)
    ensures r.Reply? && r.status == 200 && r.body.LoggedIn?
    ensures r.body.message == "User logged in successfully!" && r.body.user == SummaryOf(u)
    ensures r.body.token == Sign(SessionClaims(u), SessionTtl, now)
    ensures r.cookies == [InitializeSessionCookie(r.body.token)]
  {
    var t := Sign(SessionClaims(u), SessionTtl, now);
    Reply(200, LoggedIn("User logged in successfully!", t, SummaryOf(u)), [InitializeSessionCookie(t)])
  }

  /** `logout_user`: overwrite the session cookie with an empty value that expired at the epoch. */
  function LogoutUser(): (r: Reply)
    ensures r.Reply? && r.status == 200 && r.body == Flag(true, "User logged out successfully!")
    ensures r.cookies == [SetCookie(SessionCookie, EmptyValue, ExpiresAtMs(0))]
  {
    Reply(200, Flag(true, "User logged out successfully!"), [SetCookie(SessionCookie, EmptyValue, ExpiresAtMs(0))])
  }

  /** `get_user_data`: the bound user's summary, or 401 when the request carries none. */
  function GetUserData(principal: Option<User>): (r: Reply)
    ensures principal.None? ==> r == Reply(401, Flag(false, "Unauthorized"), [])
    ensures principal.Some? ==>
      r == Reply(200, Success(CurrentUser(SummaryOf(principal.value)), "User retrieved successfully!"), [])
  {
    match principal
    case None => Reply(401, Flag(false, "Unauthorized"), [])
    case Some(u) => SuccessEnvelope(Some(CurrentUser(SummaryOf(u))), "User retrieved successfully!", 200)
  }

  /** `authenticate_user`: reached only through the session gate. */
  function AuthenticateUser(): (r: Reply)
    ensures r == Reply(200, Status("authorization_status", "Authorized"), [])
  {
    Reply(200, Status("authorization_status", "Authorized"), [])
  }

  /**
   `verify_user_email` as written: it marks the user document it was handed
   as verified and spends its token, but never saves it, so the collection
   leaves the request as it came in.
   */
  function VerifyUserEmail(d: Directory, u: User): (r: Exchange)
    ensures r.reply == Reply(200, Status("verification_status", "Verified"), [])
    ensures r.users == d
  {
    Exchange(Reply(200, Status("verification_status", "Verified"), []), d)
  }

  /** `verify_user_email` with the missing `await user.save()`. */
  function VerifyUserEmailFixed(d: Directory, u: User): (r: Exchange)
    ensures Answered(r.reply, 200) <==> u.id in d && forall k :: k in d && k != u.id ==> d[k].email != u.email
    ensures Answered(r.reply, 200) ==>
      && r.reply == Reply(200, Status("verification_status", "Verified"), [])
      && r.users == d[u.id := Verified(u)]
    ensures !Answered(r.reply, 200) ==> r.reply == ServerFault() && r.users == d
  {
    match Update(d, Verified(u))
    case None => Exchange(ServerFault(), d)
    case Some(d') => Exchange(Reply(200, Status("verification_status", "Verified"), []), d')
  }

  /**
   `send_verification_email` as written. It reads `req.body.user`, which no
   gate sets on this route, so only a client that posts a `user` object of its
   own gets past the template; even then the handler returns the transport's
   receipt instead of answering, so the request is never answered. A missing
   `user` (a TypeError) and a transport failure both reach the error handler.
   */
  function SendVerificationEmail(bodyHasUser: bool, mailDelivered: bool): (r: Reply)
    ensures !bodyHasUser ==> r == ServerFault()
    ensures r.Reply? ==> r == ServerFault()
    ensures r == NoReply <==> bodyHasUser && mailDelivered
  {
    if !bodyHasUser then ServerFault()
    else if mailDelivered then NoReply
    else ServerFault()
  }

  /**
   The resend endpoint as its test expects it: mail the bound user's stored
   token and answer 200 `{email_status: "Sent"}`; a transport failure still
   reaches the error handler.
   */
  function SendVerificationEmailFixed(principal: User, mailDelivered: bool): (r: Reply)
    ensures mailDelivered <==> r == Reply(200, Status("email_status", "Sent"), [])
    ensures !mailDelivered ==> r == ServerFault()
  {
    if mailDelivered then Reply(200, Status("email_status", "Sent"), []) else ServerFault()
  }

  // Partners: what each handler's result means for the next request

  /** The saved password digest matches the plaintext the user registered with. */
  lemma RegisteredPasswordMatches(env: Env, d: Directory, reg: Registration, freshId: ObjectId, now: nat)
    requires HashRoundTrip(env)
    requires Answered(RegisterUser(env, d, reg, freshId, now).reply, 200)
    ensures env.compare(reg.password, RegisterUser(env, d, reg, freshId, now).users[freshId].password)
  {
  }

  /** The stored verification token names the new user and passes the verification gate for twelve hours. */
  lemma RegisteredTokenVerifies(env: Env, d: Directory, reg: Registration, freshId: ObjectId, now: nat, at: nat)
    requires Answered(RegisterUser(env, d, reg, freshId, now).reply, 200)
    requires now <= at < now + VerificationTtl
    ensures (var d' := RegisterUser(env, d, reg, freshId, now).users;
             ValidateVerificationToken(d', d'[freshId].verificationToken.value, at) == Confirmed(d'[freshId]))
  {
    var d' := RegisterUser(env, d, reg, freshId, now).users;
    VerificationGateConfirmsIffAccepted(d', d'[freshId].verificationToken.value, at);
  }

  /** The cookie login sets is bound back to the same user by the session gate for the next hour. */
  lemma LoginCookieBindsUser(d: Directory, u: User, now: nat, at: nat, authorization: Option<string>)
    requires u.id in d && d[u.id] == u
    requires now <= at < now + SessionTtl
    ensures (var jar := StoreCookies(map[], LoginUser(u, now).cookies, now * 1000);
             ValidateSessionToken(d, jar, authorization, at) == Bound(u))
  {
    var jar := StoreCookies(map[], LoginUser(u, now).cookies, now * 1000);
    assert jar == map[SessionCookie := Sign(SessionClaims(u), SessionTtl, now)];
    SessionGateBindsIffAccepted(d, jar, authorization, at);
  }

  /** After logout the client holds no session cookie, so every session-gated route answers Unauthorized. */
  lemma LogoutEndsSession(d: Directory, jar: map<string, Token>, nowMs: nat, at: nat, authorization: Option<string>)
    ensures SessionCookie !in StoreCookies(jar, LogoutUser().cookies, nowMs)
    ensures ValidateSessionToken(d, StoreCookies(jar, LogoutUser().cookies, nowMs), authorization, at) == Unauthorized
  {
    assert StoreCookies(jar, LogoutUser().cookies, nowMs) == jar - {SessionCookie};
  }

  /** Logout touches no cookie but the session cookie. */
  lemma LogoutKeepsOtherCookies(jar: map<string, Token>, nowMs: nat, name: string)
    requires name != SessionCookie && name in jar
    ensures name in StoreCookies(jar, LogoutUser().cookies, nowMs)
    ensures StoreCookies(jar, LogoutUser().cookies, nowMs)[name] == jar[name]
  {
  }
}
