/**
 The v1 request gates (`auth/v1/auth.middleware.js`): the rate limiter, the
 registration and login validators (which sanitize the fields they check),
 the token gate and the e-mail verification gate. Refusals use the
 `response.error` envelope.
 */
module AuthV1Middleware {
  import opened Base
  import opened Jwt
  import opened Oracles
  import opened Records
  import opened Validation

  const TokenCookie := "nanta-jsonwebtoken"

  /** The `type` claim of a v1 verification token. */
  const V1VerificationTag := "email_verification"

  const MsgInvalidCredentials := "Invalid credentials"

  // The rate limiter: at most 20 requests per client per 60-second window

  const RateWindowMs: nat := 60 * 1000
  const MaxRequestsPerWindow: nat := 20
  const RateLimitMessage := "Too many requests, please try again later."

  /** One client's counter: the hits in the current window and the instant it resets. */
  datatype Window = Window(hits: nat, resetAtMs: nat)

  datatype RateDecision = RateDecision(window: Window, allowed: bool)

  /**
   One request from a client: a new window opens on the first request and
   whenever the old one has run out; otherwise the hit is counted in it. The
   request is let through while the count is within the limit.
   */
  function Hit(w: Option<Window>, nowMs: nat): (r: RateDecision)
    ensures w.None? || nowMs >= w.value.resetAtMs ==> r.window == Window(1, nowMs + RateWindowMs) && r.allowed
    ensures w.Some? && nowMs < w.value.resetAtMs ==>
      && r.window == w.value.(hits := w.value.hits + 1)
      && (r.allowed <==> w.value.hits < MaxRequestsPerWindow)
  {
    var next := if w.None? || nowMs >= w.value.resetAtMs then Window(1, nowMs + RateWindowMs)
                else w.value.(hits := w.value.hits + 1);
    RateDecision(next, next.hits <= MaxRequestsPerWindow)
  }

  /**
   Replays a client's requests, in order, through a fresh limiter and returns
   the verdict on each. The first request always passes. When every request
   falls within the window the first one opened, exactly the first 20 pass and
   every later one is refused.
   */
  method Admissions(timesMs: seq<nat>) returns (verdicts: seq<bool>)
    ensures |verdicts| == |timesMs|
    ensures |timesMs| > 0 ==> verdicts[0]
    ensures (|timesMs| > 0 && forall i :: 0 <= i < |timesMs| ==> timesMs[i] < timesMs[0] + RateWindowMs) ==>
      forall i :: 0 <= i < |verdicts| ==> (verdicts[i] <==> i < MaxRequestsPerWindow)
  {
    var w: Option<Window> := None;
    verdicts := [];
    var i := 0;
    var inFirstWindow := |timesMs| > 0 && forall k :: 0 <= k < |timesMs| ==> timesMs[k] < timesMs[0] + RateWindowMs;
    while i < |timesMs|
      invariant 0 <= i <= |timesMs|
      invariant |verdicts| == i
      invariant i == 0 ==> w.None?
      invariant i > 0 ==> verdicts[0]
      invariant inFirstWindow && i > 0 ==>
        && w == Some(Window(i, timesMs[0] + RateWindowMs))
        && forall k :: 0 <= k < i ==> (verdicts[k] <==> k < MaxRequestsPerWindow)
    {
      if inFirstWindow && i > 0 {
        assert timesMs[i] < timesMs[0] + RateWindowMs;
      }
      var decision := Hit(w, timesMs[i]);
      w := Some(decision.window);
      verdicts := verdicts + [decision.allowed];
      i := i + 1;
    }
  }

  // The registration validator

  /** What the email chain hands on: `escape` runs first, so every later rule sees the escaped text. */
  function EscapedEmail(email: Value): (v: string)
    ensures v == "" <==> email.Text() == ""
  {
    EscapeKeepsEmptiness(email.Text());
    Escape(email.Text())
  }

  /**
   The email chain: escape, notEmpty, isEmail, then `bail`, which ends the chain
   when either rule failed; only then normalizeEmail and the duplicate lookup.
   */
  function V1EmailErrors(env: Env, d: Directory, email: Value): seq<FieldError> {
    var v := EscapedEmail(email);
    (if v == "" then [FieldError("email", MsgEmail)] else [])
    + (if !env.isEmail(v) then [FieldError("email", MsgValidEmail)]
       else if v != "" && EmailTaken(d, env.normalizeEmail(v)) then [FieldError("email", MsgEmailTaken)]
       else [])
  }

  /** The confirmation rule: strict inequality with the password as sent, whatever either holds. */
  function V1ConfirmErrors(password: Value, confirm: Value): seq<FieldError> {
    if confirm != password then [FieldError("confirm_password", MsgMismatch)] else []
  }

  /** All failures, chains in schema order: email, first_name, last_name, password, confirm_password. */
  function V1RegistrationErrors(env: Env, d: Directory, b: RegistrationBody): seq<FieldError> {
    V1EmailErrors(env, d, b.email)
    + NotEmptyErrors("first_name", b.firstName, MsgFirstName)
    + NotEmptyErrors("last_name", b.lastName, MsgLastName)
    + PasswordErrors(b.password)
    + V1ConfirmErrors(b.password, b.confirmPassword)
  }

  /** A name field after its chain's `trim` and `escape` sanitizers. */
  function SanitizedName(v: Value): string {
    Escape(Trim(v.Text()))
  }

  /** What the v1 handler reads from the sanitized body. */
  datatype V1Registration = V1Registration(firstName: string, lastName: string, email: string, password: string)

  /** Reference definition of an acceptable v1 registration. */
  predicate V1RegistrationAcceptable(env: Env, d: Directory, b: RegistrationBody) {
    && b.email.Truthy()
    && env.isEmail(Escape(b.email.s))
    && !EmailTaken(d, env.normalizeEmail(Escape(b.email.s)))
    && b.firstName.Truthy()
    && b.lastName.Truthy()
    && b.password.Truthy() && VisibleLength(b.password.s) >= MinPasswordLength
    && b.confirmPassword == b.password
  }

  /** `validate_registration`: the collected errors folded last-wins, or the sanitized fields. */
  function ValidateRegistration(env: Env, d: Directory, b: RegistrationBody): (r: Checked<V1Registration>)
    ensures r.Proceed? <==> V1RegistrationAcceptable(env, d, b)
    ensures r.Proceed? ==> r.input == V1Registration(
      SanitizedName(b.firstName), SanitizedName(b.lastName), env.normalizeEmail(Escape(b.email.s)), b.password.s)
    ensures r.Reject? ==> r.errors != map[]
  {
    var errs := V1RegistrationErrors(env, d, b);
    EscapeKeepsEmptiness(b.email.Text());
    if errs == [] then
      Proceed(V1Registration(
        SanitizedName(b.firstName), SanitizedName(b.lastName), env.normalizeEmail(Escape(b.email.s)), b.password.s))
    else
      FoldingsCoverPaths(errs);
      assert errs[0].path in Folded(errs);
      Reject(Folded(errs))
  }

  // The login validator

  /** Reference definition of a successful v1 login check. */
  predicate V1LoginAcceptable(env: Env, d: Directory, c: Credentials) {
    && c.email.Truthy()
    && env.isEmail(Escape(c.email.s))
    && EmailTaken(d, env.normalizeEmail(Escape(c.email.s)))
    && c.password.Truthy()
    && env.compare(c.password.s, FindByEmail(d, env.normalizeEmail(Escape(c.email.s))).value.password)
  }

  /**
   `validate_log_in`: every failure (including the TypeError a missing account
   raises in the password rule) is answered with an empty errors object; on
   success the handler reads the sanitized e-mail.
   */
  function ValidateLogIn(env: Env, d: Directory, c: Credentials): (r: Checked<string>)
    ensures r.Proceed? <==> V1LoginAcceptable(env, d, c)
    ensures r.Proceed? ==> EmailTaken(d, r.input) && r.input == env.normalizeEmail(Escape(c.email.s))
    ensures r.Reject? ==> r.errors == map[]
  {
    var v := EscapedEmail(c.email);
    if v == "" || !env.isEmail(v) then Reject(map[])
    else
      var email := env.normalizeEmail(v);
      match FindByEmail(d, email)
      case None => Reject(map[])
      case Some(u) =>
        if c.password.Truthy() && env.compare(c.password.s, u.password) then Proceed(email) else Reject(map[])
  }

  // The token gates

  /** A gate's verdict: hand the value on, or refuse with a status and the envelope's message. */
  datatype Guard<T> = Pass(value: T) | Deny(status: int, message: string)

  /**
   `validate_token`: any token that verifies passes, whatever its `type`; its
   claims become `request.user`.
   */
  function ValidateToken(cookies: map<string, Token>, now: nat): (r: Guard<Claims>)
    ensures r.Pass? <==> TokenCookie in cookies && Verify(cookies[TokenCookie], now).Ok?
    ensures r.Pass? ==> r.value == cookies[TokenCookie].claims
    ensures TokenCookie !in cookies ==> r == Deny(401, "Unauthorized")
    ensures TokenCookie in cookies && !Verify(cookies[TokenCookie], now).Ok? ==> r == Deny(401, "Invalid or expired token")
  {
    if TokenCookie !in cookies then Deny(401, "Unauthorized")
    else
      match Verify(cookies[TokenCookie], now)
      case Ok(claims) => Pass(claims)
      case _ => Deny(401, "Invalid or expired token")
  }

  /**
   The `email` claim v1 reads at the top level of the payload. A v2-shaped
   payload has none, and the lookup by a missing e-mail is taken to find nobody.
   */
  function ClaimedEmail(s: Subject): (e: Option<string>)
    ensures e.Some? <==> s.TopLevel?
    ensures e.Some? ==> e.value == s.email
  {
    match s
    case TopLevel(_, email) => Some(email)
    case Nested(_, _) => None
  }

  /** `User.findOne({email})` for the e-mail a payload carries. */
  function FindByClaimedEmail(d: Directory, s: Subject): (r: Option<User>)
    ensures r.Some? <==> s.TopLevel? && EmailTaken(d, s.email)
    ensures r.Some? ==> r.value.id in d && d[r.value.id] == r.value && r.value.email == s.email
  {
    match ClaimedEmail(s)
    case None => None
    case Some(email) => FindByEmail(d, email)
  }

  /**
   `validate_verification_token`: each failure throws, and its message is the
   refusal's message: a missing path token, the jwt error, a foreign `type`,
   no such user, an already verified user, or a token that is not the one stored.
   */
  function ValidateVerificationToken(d: Directory, presented: Option<Token>, now: nat): (r: Guard<User>)
    ensures r.Deny? ==> r.status == 401
    ensures r.Pass? ==>
      && presented.Some?
      && Verify(presented.value, now).Ok?
      && presented.value.claims.tag == Some(V1VerificationTag)
      && r.value.id in d && d[r.value.id] == r.value
      && presented.value.claims.subject == TopLevel(presented.value.claims.subject.id, r.value.email)
      && !r.value.isVerified
      && r.value.verificationToken == presented
  {
    if presented.None? then Deny(401, "Missing token")
    else
      var t := presented.value;
      var decoded := Verify(t, now);
      if !decoded.Ok? then Deny(401, FailureMessage(decoded))
      else if decoded.claims.tag != Some(V1VerificationTag) then Deny(401, "Invalid token type")
      else
        match FindByClaimedEmail(d, decoded.claims.subject)
        case None => Deny(401, "User not found")
        case Some(u) =>
          if u.isVerified then Deny(401, "User already verified")
          else if u.verificationToken != Some(t) then Deny(401, "Invalid token")
          else Pass(u)
  }

  // Properties

  /** The v1 verification gate in full: which check refuses, in the order the handler makes them. */
  lemma VerificationGateOrder(d: Directory, t: Token, now: nat)
    ensures t.integrity != Signed ==> ValidateVerificationToken(d, Some(t), now) == Deny(401, Verify(t, now).reason)
    ensures t.integrity == Signed && t.exp <= now ==> ValidateVerificationToken(d, Some(t), now) == Deny(401, ExpiredMessage)
    ensures Verify(t, now).Ok? && t.claims.tag != Some(V1VerificationTag) ==>
      ValidateVerificationToken(d, Some(t), now) == Deny(401, "Invalid token type")
    ensures Verify(t, now).Ok? && t.claims.tag == Some(V1VerificationTag) && FindByClaimedEmail(d, t.claims.subject).None? ==>
      ValidateVerificationToken(d, Some(t), now) == Deny(401, "User not found")
    ensures Verify(t, now).Ok? && t.claims.tag == Some(V1VerificationTag) && FindByClaimedEmail(d, t.claims.subject).Some? ==>
      ValidateVerificationToken(d, Some(t), now) ==
        (var u := FindByClaimedEmail(d, t.claims.subject).value;
         if u.isVerified then Deny(401, "User already verified")
         else if u.verificationToken != Some(t) then Deny(401, "Invalid token")
         else Pass(u))
  {
  }

  /** A missing e-mail is reported as invalid, not as missing: the later message overwrites the earlier. */
  lemma {:induction false} V1MissingEmailReportsInvalid(env: Env, d: Directory, b: RegistrationBody)
    requires RejectsEmptyEmail(env)
    requires !b.email.Truthy()
    ensures ValidateRegistration(env, d, b).Reject?
    ensures "email" in ValidateRegistration(env, d, b).errors
    ensures ValidateRegistration(env, d, b).errors["email"] == MsgValidEmail
  {
    var e := V1EmailErrors(env, d, b.email);
    var rest := NotEmptyErrors("first_name", b.firstName, MsgFirstName)
      + NotEmptyErrors("last_name", b.lastName, MsgLastName)
      + PasswordErrors(b.password)
      + V1ConfirmErrors(b.password, b.confirmPassword);
    assert V1RegistrationErrors(env, d, b) == e + rest;
    assert e == [FieldError("email", MsgEmail), FieldError("email", MsgValidEmail)] by {
      assert EscapedEmail(b.email) == "" && !env.isEmail("");
    }
    assert LastMessage(e, "email") == Some(MsgValidEmail) by {
      assert e[..|e| - 1] == [FieldError("email", MsgEmail)];
    }
    FirstMessageElsewhere(rest, "email");
    LastMessageAppend(e, rest, "email");
    FoldedIsLastWins(e + rest, "email");
    assert ValidateRegistration(env, d, b) == Reject(Folded(e + rest));
  }

  /**
   `bail` after the format rule: with a missing or malformed (escaped) address
   the directory is never consulted.
   */
  lemma V1EmailFailureSkipsLookup(env: Env, d1: Directory, d2: Directory, b: RegistrationBody)
    requires !b.email.Truthy() || !env.isEmail(Escape(b.email.Text()))
    ensures ValidateRegistration(env, d1, b) == ValidateRegistration(env, d2, b)
  {
    assert V1EmailErrors(env, d1, b.email) == V1EmailErrors(env, d2, b.email);
    assert V1RegistrationErrors(env, d1, b) == V1RegistrationErrors(env, d2, b);
  }

  /** The confirmation is compared even when the password itself failed: any difference is reported. */
  lemma V1MismatchReportedIffDifferent(env: Env, d: Directory, b: RegistrationBody)
    ensures (var r := ValidateRegistration(env, d, b);
             r.Reject? && "confirm_password" in r.errors && r.errors["confirm_password"] == MsgMismatch)
        <==> b.confirmPassword != b.password
  {
    var errs := V1RegistrationErrors(env, d, b);
    var front := V1EmailErrors(env, d, b.email)
      + NotEmptyErrors("first_name", b.firstName, MsgFirstName)
      + NotEmptyErrors("last_name", b.lastName, MsgLastName)
      + PasswordErrors(b.password);
    var c := V1ConfirmErrors(b.password, b.confirmPassword);
    assert errs == front + c;
    FirstMessageElsewhere(front, "confirm_password");
    LastMessageAppend(front, c, "confirm_password");
    if c != [] {
      assert c[..|c| - 1] == [];
    }
    FoldedIsLastWins(errs, "confirm_password");
    FoldingsCoverPaths(errs);
  }
}
