/**
 The v2 router (`auth/v2/auth.routes.js`): each route runs its gate and,
 when the gate lets the request through, its handler. A gate that answers
 ends the request; a gate that calls `next(err)` hands it to the
 application's error handler.
 */
module AuthV2Routes {
  import opened Base
  import opened Jwt
  import opened Oracles
  import opened Records
  import opened Validation
  import opened Envelopes
  import opened AuthV2Middleware
  import opened AuthV2Controller

  /** The session gate's own answer: 400 Unauthorized, or the error handler's 500. */
  function SessionRefusal(c: SessionCheck): (r: Reply)
    requires !c.Bound?
    ensures c == Unauthorized ==> r == Reply(400, Status("authorization_status", "Unauthorized"), [])
    ensures c.Forwarded? ==> r == ServerFault()
  {
    if c == Unauthorized then Reply(400, Status("authorization_status", "Unauthorized"), []) else ServerFault()
  }

  const InvalidTokenReply := Reply(400, Status("verification_status", "Invalid token"), [])

  /** `POST /register`. */
  function PostRegister(env: Env, d: Directory, b: RegistrationBody, freshId: ObjectId, now: nat): (r: Exchange)
    ensures !RegistrationAcceptable(env, d, b) ==>
      r.users == d && r.reply.Reply? && r.reply.status == 400 && r.reply.body.FieldErrors? && r.reply.body.errors != map[]
    ensures Answered(r.reply, 200) ==>
      && RegistrationAcceptable(env, d, b)
      && freshId in r.users && freshId !in d
      && r.users[freshId].email == env.normalizeEmail(b.email.s)
      && r.users[freshId].password == env.hash(b.password.s)
      && !r.users[freshId].isVerified
    ensures !Answered(r.reply, 200) ==> r.users == d
  {
    match ValidateRegistrationInput(env, d, b)
    case Reject(errors) => Exchange(Reply(400, FieldErrors(errors), []), d)
    case Proceed(reg) => RegisterUser(env, d, reg, freshId, now)
  }

  /** `POST /login`. */
  function PostLogin(env: Env, d: Directory, c: Credentials, now: nat): (r: Reply)
    ensures Answered(r, 200) <==> LoginAcceptable(env, d, c)
    ensures !Answered(r, 200) ==> r == Reply(400, FieldErrors(LoginFailure), [])
    ensures Answered(r, 200) ==>
      && r.body.LoggedIn?
      && r.body.user.id in d
      && r.body.user == SummaryOf(d[r.body.user.id])
      && r.body.user.email == env.normalizeEmail(c.email.s)
  {
    match ValidateLoginInput(env, d, c)
    case Reject(errors) => Reply(400, FieldErrors(errors), [])
    case Proceed(u) => LoginUser(u, now)
  }

  /** `POST /logout`: no gate. */
  function PostLogout(): (r: Reply)
    ensures Answered(r, 200) && r.cookies == [SetCookie(SessionCookie, EmptyValue, ExpiresAtMs(0))]
  {
    LogoutUser()
  }

  /** `GET /user`. */
  function GetUser(d: Directory, cookies: map<string, Token>, authorization: Option<string>, now: nat): (r: Reply)
    ensures Answered(r, 200) <==> SessionAccepted(d, cookies, now)
    ensures Answered(r, 200) ==>
      r.body == Success(CurrentUser(SummaryOf(d[cookies[SessionCookie].claims.subject.id])), "User retrieved successfully!")
  {
    SessionGateBindsIffAccepted(d, cookies, authorization, now);
    match ValidateSessionToken(d, cookies, authorization, now)
    case Bound(u) => GetUserData(Some(u))
    case _ => SessionRefusal(ValidateSessionToken(d, cookies, authorization, now))
  }

  /** `GET /user/authenticate`. */
  function GetAuthenticate(d: Directory, cookies: map<string, Token>, authorization: Option<string>, now: nat): (r: Reply)
    ensures r == Reply(200, Status("authorization_status", "Authorized"), []) <==> SessionAccepted(d, cookies, now)
    ensures !SessionAccepted(d, cookies, now) ==>
      r == Reply(400, Status("authorization_status", "Unauthorized"), []) || r == ServerFault()
  {
    SessionGateBindsIffAccepted(d, cookies, authorization, now);
    match ValidateSessionToken(d, cookies, authorization, now)
    case Bound(_) => AuthenticateUser()
    case _ => SessionRefusal(ValidateSessionToken(d, cookies, authorization, now))
  }

  /** `POST /user/verify-email/resend` as written; the collection is not touched. */
  function PostResend(d: Directory, cookies: map<string, Token>, authorization: Option<string>, now: nat,
                      bodyHasUser: bool, mailDelivered: bool): (r: Reply)
    ensures !Answered(r, 200)
    ensures SessionAccepted(d, cookies, now) ==> r == SendVerificationEmail(bodyHasUser, mailDelivered)
  {
    SessionGateBindsIffAccepted(d, cookies, authorization, now);
    match ValidateSessionToken(d, cookies, authorization, now)
    case Bound(_) => SendVerificationEmail(bodyHasUser, mailDelivered)
    case _ => SessionRefusal(ValidateSessionToken(d, cookies, authorization, now))
  }

  /** The resend route with its handler reading the user the session gate bound. */
  function PostResendFixed(d: Directory, cookies: map<string, Token>, authorization: Option<string>, now: nat,
                           mailDelivered: bool): (r: Reply)
    ensures r == Reply(200, Status("email_status", "Sent"), []) <==> SessionAccepted(d, cookies, now) && mailDelivered
  {
    SessionGateBindsIffAccepted(d, cookies, authorization, now);
    match ValidateSessionToken(d, cookies, authorization, now)
    case Bound(u) => SendVerificationEmailFixed(u, mailDelivered)
    case _ => SessionRefusal(ValidateSessionToken(d, cookies, authorization, now))
  }

  /** `POST /user/verify-email/:token` as written. */
  function PostVerifyEmail(d: Directory, presented: Token, now: nat): (r: Exchange)
    ensures r.users == d
    ensures r.reply == Reply(200, Status("verification_status", "Verified"), []) <==> VerificationAccepted(d, presented, now)
    ensures !VerificationAccepted(d, presented, now) ==> r.reply == InvalidTokenReply
  {
    VerificationGateConfirmsIffAccepted(d, presented, now);
    match ValidateVerificationToken(d, presented, now)
    case InvalidToken => Exchange(InvalidTokenReply, d)
    case Confirmed(u) => VerifyUserEmail(d, u)
  }

  /** The verification route with the handler that saves the verified user. */
  function PostVerifyEmailFixed(d: Directory, presented: Token, now: nat): (r: Exchange)
    ensures r.reply == Reply(200, Status("verification_status", "Verified"), []) <==> VerificationAccepted(d, presented, now)
    ensures VerificationAccepted(d, presented, now) ==>
      r.users == d[presented.claims.subject.id := Verified(d[presented.claims.subject.id])]
    ensures !VerificationAccepted(d, presented, now) ==> r == Exchange(InvalidTokenReply, d)
  {
    VerificationGateConfirmsIffAccepted(d, presented, now);
    match ValidateVerificationToken(d, presented, now)
    case InvalidToken => Exchange(InvalidTokenReply, d)
    case Confirmed(u) =>
      UpdateSameEmailSucceeds(d, Verified(u));
      VerifyUserEmailFixed(d, u)
  }

  // Journeys across requests

  /** `GET /user` never reaches its handler's 401 branch: the gate always binds a user first. */
  lemma GetUserNeverAnswers401(d: Directory, cookies: map<string, Token>, authorization: Option<string>, now: nat)
    ensures !Answered(GetUser(d, cookies, authorization, now), 401)
  {
  }

  /**
   Register, then log in with the same e-mail and password: the login succeeds,
   and the cookie it sets is Authorized for one hour and Unauthorized from then on.
   */
  lemma RegisterThenLoginAuthorizesForOneHour(
    env: Env, d: Directory, b: RegistrationBody, freshId: ObjectId, t0: nat, t1: nat, t2: nat, authorization: Option<string>)
    requires HashRoundTrip(env)
    requires Answered(PostRegister(env, d, b, freshId, t0).reply, 200)
    ensures (var d' := PostRegister(env, d, b, freshId, t0).users;
             var login := PostLogin(env, d', Credentials(b.email, b.password), t1);
             var jar := StoreCookies(map[], login.cookies, t1 * 1000);
             && Answered(login, 200)
             && login.body.user == SummaryOf(d'[freshId])
             && (t1 <= t2 < t1 + SessionTtl ==>
                   GetAuthenticate(d', jar, authorization, t2) == Reply(200, Status("authorization_status", "Authorized"), []))
             && (t2 >= t1 + SessionTtl ==>
                   GetAuthenticate(d', jar, authorization, t2) == Reply(400, Status("authorization_status", "Unauthorized"), [])))
  {
    var d' := PostRegister(env, d, b, freshId, t0).users;
    var email := env.normalizeEmail(b.email.s);
    assert d'[freshId].email == email;
    assert FindByEmail(d', email) == Some(d'[freshId]);
    assert LoginAcceptable(env, d', Credentials(b.email, b.password));
    var u := d'[freshId];
    assert ValidateLoginInput(env, d', Credentials(b.email, b.password)) == Proceed(u);
    var jar := StoreCookies(map[], LoginUser(u, t1).cookies, t1 * 1000);
    assert jar == map[SessionCookie := Sign(SessionClaims(u), SessionTtl, t1)];
    SessionGateBindsIffAccepted(d', jar, authorization, t2);
  }

  /** Registering the same body twice: the second attempt is refused with "Email is already registered". */
  lemma ReRegistrationRefused(env: Env, d: Directory, b: RegistrationBody, id1: ObjectId, id2: ObjectId, t0: nat, t1: nat)
    requires Answered(PostRegister(env, d, b, id1, t0).reply, 200)
    ensures (var d' := PostRegister(env, d, b, id1, t0).users;
             var again := PostRegister(env, d', b, id2, t1);
             && again.users == d'
             && again.reply.Reply? && again.reply.status == 400
             && again.reply.body == FieldErrors(ValidateRegistrationInput(env, d', b).errors)
             && "email" in again.reply.body.errors
             && again.reply.body.errors["email"] == MsgEmailTaken)
  {
    var d' := PostRegister(env, d, b, id1, t0).users;
    assert EmailTaken(d', env.normalizeEmail(b.email.s)) by {
      assert d'[id1].email == env.normalizeEmail(b.email.s);
    }
    DuplicateEmailReportedOnlyAfterFormat(env, d', b);
  }

  /** A verification token in the session cookie is refused, and a session token on the verification route too. */
  lemma TokenTypesDoNotMix(d: Directory, t: Token, authorization: Option<string>, now: nat)
    ensures t.claims.tag == Some(VerificationTag) ==>
      GetAuthenticate(d, map[SessionCookie := t], authorization, now) != Reply(200, Status("authorization_status", "Authorized"), [])
    ensures t.claims.tag == Some(SessionTag) ==>
      PostVerifyEmail(d, t, now).reply == InvalidTokenReply
      && PostVerifyEmailFixed(d, t, now).reply == InvalidTokenReply
  {
  }

  /**
   As written, a verification link can be replayed for as long as the token
   lives, and the account is never marked verified.
   */
  lemma VerificationReplayAsWritten(d: Directory, t: Token, now: nat, later: nat)
    requires VerificationAccepted(d, t, now)
    requires now <= later < t.exp
    ensures (var first := PostVerifyEmail(d, t, now);
             var second := PostVerifyEmail(first.users, t, later);
             && first.reply == Reply(200, Status("verification_status", "Verified"), [])
             && second.reply == Reply(200, Status("verification_status", "Verified"), [])
             && second.users == d)
  {
  }

  /** With the save in place, a link verifies the account once and is refused afterwards. */
  lemma VerificationSingleUseFixed(d: Directory, t: Token, now: nat, later: nat)
    requires VerificationAccepted(d, t, now)
    ensures (var first := PostVerifyEmailFixed(d, t, now);
             var second := PostVerifyEmailFixed(first.users, t, later);
             && first.reply == Reply(200, Status("verification_status", "Verified"), [])
             && first.users[t.claims.subject.id].isVerified
             && second.reply == InvalidTokenReply
             && second.users == first.users)
  {
  }

  /** As written, resending never succeeds: a logged-in client that posts no `user` of its own always gets the 500. */
  lemma ResendNeverSucceedsAsWritten(d: Directory, cookies: map<string, Token>, authorization: Option<string>, now: nat,
                                     mailDelivered: bool)
    requires SessionAccepted(d, cookies, now)
    ensures PostResend(d, cookies, authorization, now, false, mailDelivered) == ServerFault()
    ensures PostResendFixed(d, cookies, authorization, now, mailDelivered) == Reply(200, Status("email_status", "Sent"), [])
         <==> mailDelivered
  {
  }
}
