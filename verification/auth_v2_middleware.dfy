/**
 The v2 request gates (`auth/v2/auth.middleware.js`): the registration and
 login validators, the session gate in front of every protected route, and
 the e-mail verification gate.
 */
module AuthV2Middleware {
  import opened Base
  import opened Jwt
  import opened Oracles
  import opened Records
  import opened Validation

  const SessionCookie := "nanta-session"
  const SessionTag := "session-token"
  const VerificationTag := "email-verification-token"

  const MsgLoginFailed := "Invalid email or password"

  /** What the handler reads from the body once every rule passed (the e-mail as sanitized). */
  datatype Registration = Registration(firstName: string, lastName: string, email: string, password: string)

  /**
   The e-mail chain: notEmpty, isEmail, then `bail`, which ends the chain when
   either earlier rule failed; only then normalizeEmail and the duplicate lookup.
   */
  function EmailErrors(env: Env, d: Directory, email: Value): seq<FieldError> {
    var missing := NotEmptyErrors("email", email, MsgEmail);
    if !env.isEmail(email.Text()) then missing + [FieldError("email", MsgValidEmail)]
    else if missing == [] && EmailTaken(d, env.normalizeEmail(email.Text())) then [FieldError("email", MsgEmailTaken)]
    else missing
  }

  /** The confirmation chain: notEmpty, then a mismatch only against a present password of length at least 8. */
  function ConfirmErrors(password: Value, confirm: Value): seq<FieldError> {
    NotEmptyErrors("confirm_password", confirm, MsgConfirm)
    + (if password.Truthy() && Utf16Length(password.s) >= MinPasswordLength && confirm != password
       then [FieldError("confirm_password", MsgMismatch)] else [])
  }

  /** All failures, chains in schema order. */
  function RegistrationErrors(env: Env, d: Directory, b: RegistrationBody): seq<FieldError> {
    NotEmptyErrors("first_name", b.firstName, MsgFirstName)
    + NotEmptyErrors("last_name", b.lastName, MsgLastName)
    + EmailErrors(env, d, b.email)
    + PasswordErrors(b.password)
    + ConfirmErrors(b.password, b.confirmPassword)
  }

  /** Reference definition of an acceptable registration, stated without the rule chains. */
  predicate RegistrationAcceptable(env: Env, d: Directory, b: RegistrationBody) {
    && b.firstName.Truthy()
    && b.lastName.Truthy()
    && b.email.Truthy() && env.isEmail(b.email.s) && !EmailTaken(d, env.normalizeEmail(b.email.s))
    && b.password.Truthy() && VisibleLength(b.password.s) >= MinPasswordLength
    && b.confirmPassword == b.password
  }

  /** `validate_registration_input`. */
  function ValidateRegistrationInput(env: Env, d: Directory, b: RegistrationBody): (r: Checked<Registration>)
    ensures r.Proceed? <==> RegistrationAcceptable(env, d, b)
    ensures r.Proceed? ==> r.input == Registration(b.firstName.s, b.lastName.s, env.normalizeEmail(b.email.s), b.password.s)
    ensures r.Reject? ==> r.errors != map[]
  {
    var errs := RegistrationErrors(env, d, b);
    VisibleWithinUtf16(b.password.Text());
    if errs == [] then
      Proceed(Registration(b.firstName.s, b.lastName.s, env.normalizeEmail(b.email.s), b.password.s))
    else
      FoldingsCoverPaths(errs);
      assert errs[0].path in Mapped(errs);
      Reject(Mapped(errs))
  }

  /** The one errors object every failed login receives. */
  const LoginFailure: ErrorMap := map["login" := MsgLoginFailed]

  /** Reference definition of a successful login check. */
  predicate LoginAcceptable(env: Env, d: Directory, c: Credentials) {
    && c.email.Truthy()
    && env.isEmail(c.email.s)
    && EmailTaken(d, env.normalizeEmail(c.email.s))
    && c.password.Str?
    && env.compare(c.password.s, FindByEmail(d, env.normalizeEmail(c.email.s)).value.password)
  }

  /**
   `validate_login_input`: the e-mail chain bails on an empty or malformed address
   and looks the account up; the password is compared with its digest (a missing
   password makes bcrypt throw, which is one more failure). Every failure is
   answered with the same errors object.
   */
  function ValidateLoginInput(env: Env, d: Directory, c: Credentials): (r: Checked<User>)
    ensures r.Proceed? <==> LoginAcceptable(env, d, c)
    ensures r.Proceed? ==> r.input.id in d && d[r.input.id] == r.input && r.input.email == env.normalizeEmail(c.email.s)
    ensures r.Reject? ==> r.errors == LoginFailure
  {
    if !c.email.Truthy() || !env.isEmail(c.email.s) then Reject(LoginFailure)
    else
      match FindByEmail(d, env.normalizeEmail(c.email.s))
      case None => Reject(LoginFailure)
      case Some(u) =>
        if c.password.Str? && env.compare(c.password.s, u.password) then Proceed(u)
        else Reject(LoginFailure)
  }

  /** The session gate's verdict: bind the user, answer 400 Unauthorized, or `next(err)`. */
  datatype SessionCheck = Bound(user: User) | Unauthorized | Forwarded(message: string)

  /** The token an `Authorization: Bearer <token>` header carries. */
  function BearerToken(authorization: Option<string>): (t: Option<string>)
    ensures t.Some? ==> authorization.Some? && authorization.value == "Bearer " + t.value
  {
    if authorization.Some? && StartsWith(authorization.value, "Bearer ") then
      assert authorization.value == "Bearer " + authorization.value[7..];
      Some(authorization.value[7..])
    else None
  }

  /**
   `validate_session_token`. The bearer token is extracted and then never read.
   The cookie must be present, verify, carry the session type and name a stored
   user; an expired token is Unauthorized while any other verification error (or
   a payload without `user._id`) is forwarded to the error handler.
   */
  function ValidateSessionToken(d: Directory, cookies: map<string, Token>, authorization: Option<string>, now: nat): (r: SessionCheck)
    ensures SessionCookie !in cookies ==> r == Unauthorized
    ensures r.Bound? ==>
      && SessionCookie in cookies
      && Verify(cookies[SessionCookie], now).Ok?
      && Verify(cookies[SessionCookie], now).claims.tag == Some(SessionTag)
      && Verify(cookies[SessionCookie], now).claims.subject == Nested(r.user.id, Verify(cookies[SessionCookie], now).claims.subject.email)
      && r.user.id in d && d[r.user.id] == r.user
    ensures r.Forwarded? ==> SessionCookie in cookies && (cookies[SessionCookie].integrity != Signed || Verify(cookies[SessionCookie], now).Ok?)
  {
    var bearer := BearerToken(authorization);
    if SessionCookie !in cookies then Unauthorized
    else
      var decoded := Verify(cookies[SessionCookie], now);
      if !decoded.Ok? then
        if FailureMessage(decoded) == ExpiredMessage then Unauthorized else Forwarded(FailureMessage(decoded))
      else if decoded.claims.tag != Some(SessionTag) then Unauthorized
      else
        match decoded.claims.subject
        case TopLevel(_, _) => Forwarded("Cannot read properties of undefined (reading '_id')")
        case Nested(id, _) =>
          match FindById(d, id)
          case None => Unauthorized
          case Some(u) => Bound(u)
  }

  /** The verification gate's verdict: hand on the stored user, or 400 "Invalid token". */
  datatype VerificationCheck = Confirmed(user: User) | InvalidToken

  /**
   `validate_verification_token`: the path token must verify, carry the
   verification type, name a stored user, and equal that user's stored token.
   Every failure, thrown or not, gives the same answer.
   */
  function ValidateVerificationToken(d: Directory, presented: Token, now: nat): (r: VerificationCheck)
    ensures r.Confirmed? ==>
      && Verify(presented, now).Ok?
      && presented.claims.tag == Some(VerificationTag)
      && r.user.id in d && d[r.user.id] == r.user
      && r.user.verificationToken == Some(presented)
  {
    var decoded := Verify(presented, now);
    if !decoded.Ok? then InvalidToken
    else if decoded.claims.tag != Some(VerificationTag) then InvalidToken
    else
      match decoded.claims.subject
      case TopLevel(_, _) => InvalidToken
      case Nested(id, _) =>
        match FindById(d, id)
        case None => InvalidToken
        case Some(u) =>
          if u.verificationToken != Some(presented) then InvalidToken else Confirmed(u)
  }

  // Properties of the registration validator

  /** The e-mail field's first message is the e-mail chain's own. */
  lemma EmailFirstMessage(env: Env, d: Directory, b: RegistrationBody)
    ensures FirstMessage(RegistrationErrors(env, d, b), "email") == FirstMessage(EmailErrors(env, d, b.email), "email")
  {
    var fl := NotEmptyErrors("first_name", b.firstName, MsgFirstName) + NotEmptyErrors("last_name", b.lastName, MsgLastName);
    var e := EmailErrors(env, d, b.email);
    var p := PasswordErrors(b.password);
    var c := ConfirmErrors(b.password, b.confirmPassword);
    assert RegistrationErrors(env, d, b) == ((fl + e) + p) + c;
    FirstMessageStop((fl + e) + p, c, "email");
    FirstMessageStop(fl + e, p, "email");
    FirstMessageSkip(fl, e, "email");
  }

  /** The password field's first message is the password chain's own. */
  lemma PasswordFirstMessage(env: Env, d: Directory, b: RegistrationBody)
    ensures FirstMessage(RegistrationErrors(env, d, b), "password") == FirstMessage(PasswordErrors(b.password), "password")
  {
    var fle := NotEmptyErrors("first_name", b.firstName, MsgFirstName) + NotEmptyErrors("last_name", b.lastName, MsgLastName)
      + EmailErrors(env, d, b.email);
    var p := PasswordErrors(b.password);
    var c := ConfirmErrors(b.password, b.confirmPassword);
    assert RegistrationErrors(env, d, b) == (fle + p) + c;
    FirstMessageStop(fle + p, c, "password");
    FirstMessageSkip(fle, p, "password");
  }

  /** The confirmation field's first message is the confirmation chain's own. */
  lemma ConfirmFirstMessage(env: Env, d: Directory, b: RegistrationBody)
    ensures FirstMessage(RegistrationErrors(env, d, b), "confirm_password")
         == FirstMessage(ConfirmErrors(b.password, b.confirmPassword), "confirm_password")
  {
    var flep := NotEmptyErrors("first_name", b.firstName, MsgFirstName) + NotEmptyErrors("last_name", b.lastName, MsgLastName)
      + EmailErrors(env, d, b.email) + PasswordErrors(b.password);
    var c := ConfirmErrors(b.password, b.confirmPassword);
    assert RegistrationErrors(env, d, b) == flep + c;
    FirstMessageSkip(flep, c, "confirm_password");
  }

  /** The message reported for a field is the first message of that field's chain. */
  lemma RegistrationReportsFirstMessage(env: Env, d: Directory, b: RegistrationBody, path: string, msg: string)
    requires path in {"email", "password", "confirm_password"}
    ensures (var r := ValidateRegistrationInput(env, d, b);
             r.Reject? && path in r.errors && r.errors[path] == msg)
        <==> FirstMessage(RegistrationErrors(env, d, b), path) == Some(msg)
  {
    var errs := RegistrationErrors(env, d, b);
    MappedIsFirstWins(errs, path);
    FirstMessageFindsPath(errs, path);
    if FirstMessage(errs, path).Some? {
      assert errs != [];
    }
  }

  /** A missing e-mail is reported as missing, not as malformed: the first message wins. */
  lemma MissingEmailReportsEnterEmail(env: Env, d: Directory, b: RegistrationBody)
    requires !b.email.Truthy()
    ensures ValidateRegistrationInput(env, d, b).Reject?
    ensures "email" in ValidateRegistrationInput(env, d, b).errors
    ensures ValidateRegistrationInput(env, d, b).errors["email"] == MsgEmail
  {
    EmailFirstMessage(env, d, b);
    RegistrationReportsFirstMessage(env, d, b, "email", MsgEmail);
  }

  /** "Email is already registered" is reported iff the address is present, well formed, and its normalized form is held. */
  lemma DuplicateEmailReportedOnlyAfterFormat(env: Env, d: Directory, b: RegistrationBody)
    ensures (var r := ValidateRegistrationInput(env, d, b);
             r.Reject? && "email" in r.errors && r.errors["email"] == MsgEmailTaken)
        <==> b.email.Truthy() && env.isEmail(b.email.s) && EmailTaken(d, env.normalizeEmail(b.email.s))
  {
    EmailFirstMessage(env, d, b);
    RegistrationReportsFirstMessage(env, d, b, "email", MsgEmailTaken);
  }

  /**
   `bail` after the format rule: with a missing or malformed address the
   directory is never consulted.
   */
  lemma EmailFailureSkipsLookup(env: Env, d1: Directory, d2: Directory, b: RegistrationBody)
    requires !b.email.Truthy() || !env.isEmail(b.email.Text())
    ensures ValidateRegistrationInput(env, d1, b) == ValidateRegistrationInput(env, d2, b)
  {
    assert EmailErrors(env, d1, b.email) == EmailErrors(env, d2, b.email);
    assert RegistrationErrors(env, d1, b) == RegistrationErrors(env, d2, b);
  }

  /** "Passwords do not match" is reported iff the confirmation is present and differs from a present password of length at least 8. */
  lemma MismatchOnlyForLongPassword(env: Env, d: Directory, b: RegistrationBody)
    ensures (var r := ValidateRegistrationInput(env, d, b);
             r.Reject? && "confirm_password" in r.errors && r.errors["confirm_password"] == MsgMismatch)
        <==> && b.confirmPassword.Truthy()
             && b.password.Truthy() && Utf16Length(b.password.s) >= MinPasswordLength
             && b.confirmPassword != b.password
  {
    ConfirmFirstMessage(env, d, b);
    RegistrationReportsFirstMessage(env, d, b, "confirm_password", MsgMismatch);
  }

  /** A present but short password earns only the length error; the confirmation is not compared. */
  lemma ShortPasswordOnlyLengthError(env: Env, d: Directory, b: RegistrationBody)
    requires b.password.Truthy() && Utf16Length(b.password.s) < MinPasswordLength
    requires b.confirmPassword.Truthy()
    ensures ValidateRegistrationInput(env, d, b).Reject?
    ensures "password" in ValidateRegistrationInput(env, d, b).errors
    ensures ValidateRegistrationInput(env, d, b).errors["password"] == MsgPasswordLength
    ensures "confirm_password" !in ValidateRegistrationInput(env, d, b).errors
  {
    var errs := RegistrationErrors(env, d, b);
    VisibleWithinUtf16(b.password.s);
    PasswordFirstMessage(env, d, b);
    ConfirmFirstMessage(env, d, b);
    RegistrationReportsFirstMessage(env, d, b, "password", MsgPasswordLength);
    MappedIsFirstWins(errs, "confirm_password");
  }

  // Properties of the session gate

  /** Reference definition of a session cookie the gate accepts, stated on the token's fields. */
  predicate SessionAccepted(d: Directory, cookies: map<string, Token>, now: nat) {
    && SessionCookie in cookies
    && cookies[SessionCookie].integrity == Signed
    && now < cookies[SessionCookie].exp
    && cookies[SessionCookie].claims.tag == Some(SessionTag)
    && cookies[SessionCookie].claims.subject.Nested?
    && cookies[SessionCookie].claims.subject.id in d
  }

  /** The gate binds a user iff the cookie is accepted, and then exactly the user the token names. */
  lemma SessionGateBindsIffAccepted(d: Directory, cookies: map<string, Token>, authorization: Option<string>, now: nat)
    ensures ValidateSessionToken(d, cookies, authorization, now).Bound? <==> SessionAccepted(d, cookies, now)
    ensures SessionAccepted(d, cookies, now) ==>
      ValidateSessionToken(d, cookies, authorization, now) == Bound(d[cookies[SessionCookie].claims.subject.id])
  {
  }

  /** Missing cookie, expiry, a foreign type tag and an unknown user all answer Unauthorized; only broken strings are forwarded. */
  lemma SessionGateUnauthorizedCases(d: Directory, cookies: map<string, Token>, authorization: Option<string>, now: nat)
    ensures ValidateSessionToken(d, cookies, authorization, now) == Unauthorized
        <==> || SessionCookie !in cookies
             || (&& cookies[SessionCookie].integrity == Signed
                 && (|| cookies[SessionCookie].exp <= now
                     || cookies[SessionCookie].claims.tag != Some(SessionTag)
                     || (cookies[SessionCookie].claims.subject.Nested? && cookies[SessionCookie].claims.subject.id !in d)))
    ensures ValidateSessionToken(d, cookies, authorization, now).Forwarded?
        <==> && SessionCookie in cookies
             && (|| cookies[SessionCookie].integrity != Signed
                 || (&& now < cookies[SessionCookie].exp
                     && cookies[SessionCookie].claims.tag == Some(SessionTag)
                     && cookies[SessionCookie].claims.subject.TopLevel?))
  {
  }

  /** The outcome depends on the cookie alone: the parsed `Authorization` header is never used. */
  lemma SessionGateIgnoresBearer(d: Directory, cookies: map<string, Token>, h1: Option<string>, h2: Option<string>, now: nat)
    ensures ValidateSessionToken(d, cookies, h1, now) == ValidateSessionToken(d, cookies, h2, now)
  {
  }

  // Properties of the verification gate

  /** Reference definition of a verification token the gate accepts. */
  predicate VerificationAccepted(d: Directory, presented: Token, now: nat) {
    && presented.integrity == Signed
    && now < presented.exp
    && presented.claims.tag == Some(VerificationTag)
    && presented.claims.subject.Nested?
    && presented.claims.subject.id in d
    && d[presented.claims.subject.id].verificationToken == Some(presented)
  }

  /** The gate confirms iff the token is accepted, handing on the user it names; everything else is "Invalid token". */
  lemma VerificationGateConfirmsIffAccepted(d: Directory, presented: Token, now: nat)
    ensures ValidateVerificationToken(d, presented, now).Confirmed? <==> VerificationAccepted(d, presented, now)
    ensures VerificationAccepted(d, presented, now) ==>
      ValidateVerificationToken(d, presented, now) == Confirmed(d[presented.claims.subject.id])
  {
  }
}
