/**
 The v1 router (`auth/v1/auth.routes.js`): the rate limiter in front of
 registration and login, the token gate in front of `/user` and the resend
 route, and the verification gate in front of `/verify-email/:token`.
 Each route takes the limiter's decision for the request as `admitted`.
 */
module AuthV1Routes {
  import opened Base
  import opened Jwt
  import opened Oracles
  import opened Records
  import opened Validation
  import opened Envelopes
  import opened AuthV1Middleware
  import opened AuthV1Controller

  /** The limiter's answer once a client is over its quota. */
  const TooManyReply := Reply(429, TooManyRequests(RateLimitMessage), [])

  /** A gate's refusal in the `response.error` envelope. */
  function Refusal<T>(g: Guard<T>): (r: Reply)
    requires g.Deny?
    ensures r == Reply(g.status, Failure(map[], g.message), [])
  {
    ErrorEnvelope(None, g.message, g.status)
  }

  /** `POST /register`. */
  function PostRegister(env: Env, d: Directory, b: RegistrationBody, freshId: ObjectId, now: nat,
                        admitted: bool, mailDelivered: bool): (r: Exchange)
    ensures !admitted ==> r == Exchange(TooManyReply, d)
    ensures admitted && !V1RegistrationAcceptable(env, d, b) ==>
      && r.users == d
      && r.reply == Reply(400, Failure(ValidateRegistration(env, d, b).errors, "Validation Error"), [])
      && r.reply.body.errors != map[]
    ensures Answered(r.reply, 201) ==>
      && admitted && mailDelivered && V1RegistrationAcceptable(env, d, b)
      && freshId !in d && freshId in r.users
      && r.users[freshId].email == env.normalizeEmail(Escape(b.email.s))
      && r.users[freshId].password == env.hash(b.password.s)
      && !r.users[freshId].isVerified
  {
    if !admitted then Exchange(TooManyReply, d)
    else
      match ValidateRegistration(env, d, b)
      case Reject(errors) => Exchange(ErrorEnvelope(Some(errors), "Validation Error", 400), d)
      case Proceed(reg) => RegisterUser(env, d, reg, freshId, now, mailDelivered)
  }

  /** `POST /login`. */
  function PostLogIn(env: Env, d: Directory, c: Credentials, now: nat, admitted: bool): (r: Reply)
    ensures !admitted ==> r == TooManyReply
    ensures admitted ==> (Answered(r, 200) <==> V1LoginAcceptable(env, d, c))
    ensures admitted && !V1LoginAcceptable(env, d, c) ==> r == Reply(400, Failure(map[], "Validation Error"), [])
    ensures Answered(r, 200) ==>
      && |r.cookies| == 1 && r.cookies[0].name == TokenCookie && r.cookies[0].value.TokenValue?
      && r.body.Success? && r.body.data.SignedIn?
      && r.cookies[0].value.token.claims == Claims(None, TopLevel(r.body.data.id, r.body.data.email))
      && r.body.data.id in d && d[r.body.data.id].email == r.body.data.email
  {
    if !admitted then TooManyReply
    else
      match ValidateLogIn(env, d, c)
      case Reject(_) => ErrorEnvelope(None, "Validation Error", 400)
      case Proceed(email) => LogInUser(d, email, now)
  }

  /** `POST /logout`: no gate. */
  function PostLogOut(): (r: Reply)
    ensures Answered(r, 200) && r.cookies == [SetCookie(TokenCookie, EmptyValue, ExpiresAtMs(0))]
  {
    LogOutUser()
  }

  /** `GET /user`. */
  function GetUserRoute(d: Directory, cookies: map<string, Token>, now: nat): (r: Reply)
    ensures Answered(r, 200) <==>
      && TokenCookie in cookies && Verify(cookies[TokenCookie], now).Ok?
      && FindByClaimedEmail(d, cookies[TokenCookie].claims.subject).Some?
    ensures TokenCookie !in cookies ==> r == Reply(401, Failure(map[], "Unauthorized"), [])
  {
    match ValidateToken(cookies, now)
    case Deny(_, _) => Refusal(ValidateToken(cookies, now))
    case Pass(claims) => GetUser(d, claims)
  }

  /** `POST /verify-email/:verification_token`. */
  function PostVerifyEmail(d: Directory, presented: Option<Token>, now: nat): (r: Exchange)
    ensures ValidateVerificationToken(d, presented, now).Deny? ==>
      r == Exchange(Refusal(ValidateVerificationToken(d, presented, now)), d)
    ensures ValidateVerificationToken(d, presented, now).Pass? ==>
      (var u := ValidateVerificationToken(d, presented, now).value;
       && r.reply == Reply(200, Success(NoData, "User email verified"), [])
       && r.users == d[u.id := Verified(u)])
  {
    match ValidateVerificationToken(d, presented, now)
    case Deny(_, _) => Exchange(Refusal(ValidateVerificationToken(d, presented, now)), d)
    case Pass(u) =>
      UpdateSameEmailSucceeds(d, Verified(u));
      VerifyEmail(d, u)
  }

  /** `POST /resend-verification-email`: the inline handler answers 200 once the mail went out. */
  function PostResendVerification(d: Directory, cookies: map<string, Token>, now: nat, mailDelivered: bool): (r: Exchange)
    ensures ValidateToken(cookies, now).Deny? ==> r == Exchange(Refusal(ValidateToken(cookies, now)), d)
    ensures r.reply == Reply(200, Success(NoData, "Verification email sent"), []) <==>
      && ValidateToken(cookies, now).Pass?
      && FindByClaimedEmail(d, cookies[TokenCookie].claims.subject).Some?
      && mailDelivered
  {
    match ValidateToken(cookies, now)
    case Deny(_, _) => Exchange(Refusal(ValidateToken(cookies, now)), d)
    case Pass(claims) =>
      var sent := SendVerificationEmail(d, ClaimedEmail(claims.subject), now, mailDelivered);
      if sent.reply == NoReply then Exchange(SuccessEnvelope(None, "Verification email sent", 200), sent.users)
      else sent
  }

  // Journeys across requests

  /**
   After `POST /logout` the client holds no token cookie, so the token gate
   answers Unauthorized and `GET /user` with it refuses with 401.
   */
  lemma V1LogOutEndsSession(d: Directory, jar: map<string, Token>, nowMs: nat, at: nat)
    ensures TokenCookie !in StoreCookies(jar, PostLogOut().cookies, nowMs)
    ensures ValidateToken(StoreCookies(jar, PostLogOut().cookies, nowMs), at) == Deny(401, "Unauthorized")
    ensures GetUserRoute(d, StoreCookies(jar, PostLogOut().cookies, nowMs), at) == Reply(401, Failure(map[], "Unauthorized"), [])
  {
    assert StoreCookies(jar, PostLogOut().cookies, nowMs) == jar - {TokenCookie};
  }

  /** A verification link works once: the next use is refused with "User already verified". */
  lemma V1VerificationSingleUse(d: Directory, t: Token, now: nat, later: nat)
    requires ValidateVerificationToken(d, Some(t), now).Pass?
    requires later < t.exp
    ensures (var first := PostVerifyEmail(d, Some(t), now);
             var second := PostVerifyEmail(first.users, Some(t), later);
             && first.reply == Reply(200, Success(NoData, "User email verified"), [])
             && second.reply == Reply(401, Failure(map[], "User already verified"), [])
             && second.users == first.users)
  {
    var u := ValidateVerificationToken(d, Some(t), now).value;
    var d' := PostVerifyEmail(d, Some(t), now).users;
    assert d'[u.id] == Verified(u);
    assert FindByClaimedEmail(d', t.claims.subject) == Some(Verified(u));
  }

  /**
   The token gate checks no `type`: a user's stored verification token, put in
   the login cookie, is accepted and reads that user's account.
   */
  lemma V1VerificationTokenOpensSession(d: Directory, id: ObjectId, now: nat)
    requires id in d && d[id].verificationToken.Some?
    requires d[id].verificationToken.value.claims.subject == TopLevel(id, d[id].email)
    requires Verify(d[id].verificationToken.value, now).Ok?
    ensures (var u := d[id];
             GetUserRoute(d, map[TokenCookie := u.verificationToken.value], now)
               == Reply(200, Success(Account(u.id, u.firstName, u.lastName, u.email, u.isVerified), "User authenticated!"), []))
  {
    assert FindByEmail(d, d[id].email) == Some(d[id]);
  }

  /** Resending replaces the stored token, so a link mailed earlier is refused with "Invalid token" from then on. */
  lemma V1ResendRetiresOldLink(d: Directory, cookies: map<string, Token>, mailed: Token, now: nat, later: nat)
    requires ValidateToken(cookies, now).Pass?
    requires cookies[TokenCookie].claims.subject.TopLevel?
    requires EmailTaken(d, cookies[TokenCookie].claims.subject.email)
    requires ValidateVerificationToken(d, Some(mailed), now).Pass?
    requires ValidateVerificationToken(d, Some(mailed), now).value == FindByEmail(d, cookies[TokenCookie].claims.subject.email).value
    requires now + VerificationTtl != mailed.exp
    requires later < mailed.exp
    ensures (var d' := PostResendVerification(d, cookies, now, true).users;
             PostVerifyEmail(d', Some(mailed), later).reply == Reply(401, Failure(map[], "Invalid token"), []))
  {
    var u := FindByEmail(d, cookies[TokenCookie].claims.subject.email).value;
    var d' := PostResendVerification(d, cookies, now, true).users;
    assert d' == d[u.id := WithFreshToken(u, now)];
    assert FindByClaimedEmail(d', mailed.claims.subject) == Some(WithFreshToken(u, now));
  }

  /**
   Register (with the mail delivered), then follow the mailed link: the
   account becomes verified. Logging in with the same fields then succeeds.
   */
  lemma V1RegisterVerifyLogIn(env: Env, d: Directory, b: RegistrationBody, freshId: ObjectId, t0: nat, t1: nat, t2: nat)
    requires HashRoundTrip(env)
    requires Answered(PostRegister(env, d, b, freshId, t0, true, true).reply, 201)
    requires t1 < t0 + VerificationTtl
    ensures (var d1 := PostRegister(env, d, b, freshId, t0, true, true).users;
             var link := d1[freshId].verificationToken;
             var d2 := PostVerifyEmail(d1, link, t1).users;
             && PostVerifyEmail(d1, link, t1).reply == Reply(200, Success(NoData, "User email verified"), [])
             && d2[freshId].isVerified
             && Answered(PostLogIn(env, d2, Credentials(b.email, b.password), t2, true), 200))
  {
    assert V1RegistrationAcceptable(env, d, b);
    var reg := ValidateRegistration(env, d, b).input;
    var registered := RegisterUser(env, d, reg, freshId, t0, true);
    assert PostRegister(env, d, b, freshId, t0, true, true) == registered;
    V1FreshAccountVerifiesAndLogsIn(env, registered.users, Credentials(b.email, b.password),
                                    V1NewUser(env, reg, freshId), t0, t1, t2);
  }

  /**
   An unverified account holding the fresh token for its own e-mail is
   verified by that token, and then the credentials it was made from log in.
   */
  lemma V1FreshAccountVerifiesAndLogsIn(env: Env, d1: Directory, c: Credentials, x: User, t0: nat, t1: nat, t2: nat)
    requires HashRoundTrip(env)
    requires x.id in d1 && d1[x.id] == WithFreshToken(x, t0) && !x.isVerified
    requires c.email.Truthy() && env.isEmail(Escape(c.email.s)) && c.password.Truthy()
    requires x.email == env.normalizeEmail(Escape(c.email.s)) && x.password == env.hash(c.password.s)
    requires t1 < t0 + VerificationTtl
    ensures (var link := d1[x.id].verificationToken;
             var d2 := PostVerifyEmail(d1, link, t1).users;
             && PostVerifyEmail(d1, link, t1).reply == Reply(200, Success(NoData, "User email verified"), [])
             && d2[x.id].isVerified
             && Answered(PostLogIn(env, d2, c, t2, true), 200))
  {
    var u := d1[x.id];
    assert FindByEmail(d1, u.email) == Some(u);
    var d2 := PostVerifyEmail(d1, u.verificationToken, t1).users;
    assert d2[x.id] == Verified(u);
    assert FindByEmail(d2, u.email) == Some(Verified(u));
    LogInFindsAccount(env, d2, c, Verified(u), t2);
  }

  /** Well-formed credentials whose e-mail names an account holding their password's hash log in. */
  lemma LogInFindsAccount(env: Env, d: Directory, c: Credentials, x: User, now: nat)
    requires HashRoundTrip(env)
    requires c.email.Truthy() && env.isEmail(Escape(c.email.s)) && c.password.Truthy()
    requires FindByEmail(d, env.normalizeEmail(Escape(c.email.s))) == Some(x)
    requires x.password == env.hash(c.password.s)
    ensures Answered(PostLogIn(env, d, c, now, true), 200)
  {
    assert env.compare(c.password.s, x.password);
    assert V1LoginAcceptable(env, d, c);
  }
}
