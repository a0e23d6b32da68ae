/**
 The profile handler (`profile/profile.controller.js`) and its route
 (`profile/profile.routes.js`): a partial update of the signed-in user's
 record, answered with the record minus its password.
 */
module Profile {
  import opened Base
  import opened Jwt
  import opened Oracles
  import opened Records
  import opened Envelopes
  import opened Validation
  import opened AuthV2Middleware
  import opened AuthV2Routes

  /** The fields of the request body the handler reads. */
  datatype ProfileBody = ProfileBody(firstName: Value, lastName: Value, email: Value, password: Value, profilePic: Value)

  const MsgProfileNotAuthenticated := "User not authenticated!"
  const MsgProfileShortPassword := "Password must be at least 8 characters."

  /**
   The `$set` the handler builds, applied to the stored record: names, e-mail
   and a new password's digest only when truthy, the picture whenever the body
   has the key (null included). The e-mail is stored as sent.
   */
  function Patched(env: Env, u: User, b: ProfileBody): (v: User)
    ensures v.id == u.id && v.isVerified == u.isVerified && v.verificationToken == u.verificationToken
    ensures b.firstName.Truthy() ==> v.firstName == b.firstName.s
    ensures !b.firstName.Truthy() ==> v.firstName == u.firstName
    ensures b.lastName.Truthy() ==> v.lastName == b.lastName.s
    ensures !b.lastName.Truthy() ==> v.lastName == u.lastName
    ensures b.email.Truthy() ==> v.email == b.email.s
    ensures !b.email.Truthy() ==> v.email == u.email
    ensures b.password.Truthy() ==> v.password == env.hash(b.password.s)
    ensures !b.password.Truthy() ==> v.password == u.password
    ensures b.profilePic.Undefined? ==> v.profilePic == u.profilePic
    ensures !b.profilePic.Undefined? ==> v.profilePic == b.profilePic
  {
    User(
      u.id,
      if b.firstName.Truthy() then b.firstName.s else u.firstName,
      if b.lastName.Truthy() then b.lastName.s else u.lastName,
      if b.email.Truthy() then b.email.s else u.email,
      if b.password.Truthy() then env.hash(b.password.s) else u.password,
      u.isVerified,
      u.verificationToken,
      if b.profilePic.Undefined? then u.profilePic else b.profilePic
    )
  }

  /** A truthy password shorter than 8 UTF-16 units (`password.length < 8`). */
  predicate ShortPassword(b: ProfileBody) {
    b.password.Truthy() && Utf16Length(b.password.s) < MinPasswordLength
  }

  /** The request past the principal check: the length check, then `findByIdAndUpdate`. */
  function ApplyProfile(env: Env, d: Directory, id: ObjectId, b: ProfileBody): (r: Exchange)
    ensures ShortPassword(b) ==> r == Exchange(Reply(400, Message(MsgProfileShortPassword), []), d)
    ensures !ShortPassword(b) && id !in d ==> r == Exchange(Reply(404, Message("User not found."), []), d)
    ensures Answered(r.reply, 200) <==>
      && !ShortPassword(b) && id in d
      && forall k :: k in d && k != id ==> d[k].email != Patched(env, d[id], b).email
    ensures Answered(r.reply, 200) ==>
      && r.users == d[id := Patched(env, d[id], b)]
      && r.reply.body == ProfileUpdated("Profile updated successfully!", PublicOf(Patched(env, d[id], b)))
    ensures !Answered(r.reply, 200) ==> r.users == d
  {
    if ShortPassword(b) then Exchange(Reply(400, Message(MsgProfileShortPassword), []), d)
    else if id !in d then Exchange(Reply(404, Message("User not found."), []), d)
    else
      var v := Patched(env, d[id], b);
      match Update(d, v)
      case None => Exchange(InternalErrorResponse(), d)
      case Some(d') => Exchange(Reply(200, ProfileUpdated("Profile updated successfully!", PublicOf(v)), []), d')
  }

  /**
   `update_profile` as written. Its 401 branch serializes the request object
   into the JSON body; that structure is circular, so the serialization throws
   and the catch answers with the generic 500 instead.
   */
  function UpdateProfile(env: Env, d: Directory, principal: Option<User>, b: ProfileBody): (r: Exchange)
    ensures principal.None? ==> r == Exchange(InternalErrorResponse(), d)
    ensures principal.Some? ==> r == ApplyProfile(env, d, principal.value.id, b)
  {
    match principal
    case None => Exchange(InternalErrorResponse(), d)
    case Some(u) => ApplyProfile(env, d, u.id, b)
  }

  /** `update_profile` answering 401 "User not authenticated!" as its authors wrote it to. */
  function UpdateProfileFixed(env: Env, d: Directory, principal: Option<User>, b: ProfileBody): (r: Exchange)
    ensures principal.None? ==> r == Exchange(Reply(401, Message(MsgProfileNotAuthenticated), []), d)
    ensures principal.Some? ==> r == UpdateProfile(env, d, principal, b)
  {
    match principal
    case None => Exchange(Reply(401, Message(MsgProfileNotAuthenticated), []), d)
    case Some(u) => ApplyProfile(env, d, u.id, b)
  }

  /** `PUT /update-info`: the session gate, then the handler for the bound user. */
  function PutUpdateInfo(env: Env, d: Directory, cookies: map<string, Token>, authorization: Option<string>, now: nat,
                         b: ProfileBody): (r: Exchange)
    ensures !SessionAccepted(d, cookies, now) ==> r.users == d && !Answered(r.reply, 200)
    ensures SessionAccepted(d, cookies, now) ==> r == ApplyProfile(env, d, cookies[SessionCookie].claims.subject.id, b)
  {
    SessionGateBindsIffAccepted(d, cookies, authorization, now);
    match ValidateSessionToken(d, cookies, authorization, now)
    case Bound(u) => UpdateProfileFixed(env, d, Some(u), b)
    case _ => Exchange(SessionRefusal(ValidateSessionToken(d, cookies, authorization, now)), d)
  }

  // Properties

  /** The two versions differ only for a request without a user, which the gate never lets through. */
  lemma MissingUserAnswer(env: Env, d: Directory, b: ProfileBody)
    ensures UpdateProfile(env, d, None, b).reply == Reply(500, Flag(false, InternalErrorMessage), [])
    ensures UpdateProfileFixed(env, d, None, b).reply == Reply(401, Message(MsgProfileNotAuthenticated), [])
  {
  }

  /** A short password rejects the whole update: no other field is written either. */
  lemma ShortPasswordWritesNothing(env: Env, d: Directory, id: ObjectId, b: ProfileBody)
    requires b.password.Truthy() && Utf16Length(b.password.s) < MinPasswordLength
    ensures ApplyProfile(env, d, id, b).users == d
    ensures ApplyProfile(env, d, id, b).reply.status == 400
  {
  }

  /** An update never verifies or unverifies an account, even when it changes the e-mail. */
  lemma ProfileKeepsVerification(env: Env, d: Directory, id: ObjectId, b: ProfileBody)
    requires id in d
    ensures id in ApplyProfile(env, d, id, b).users
    ensures ApplyProfile(env, d, id, b).users[id].isVerified == d[id].isVerified
    ensures ApplyProfile(env, d, id, b).users[id].verificationToken == d[id].verificationToken
  {
  }

  /** A body that sets nothing leaves the record as it was and answers with it. */
  lemma EmptyBodyChangesNothing(env: Env, d: Directory, id: ObjectId)
    requires id in d
    ensures (var r := ApplyProfile(env, d, id, ProfileBody(Undefined, Undefined, Undefined, Undefined, Undefined));
             && r.users == d
             && r.reply == Reply(200, ProfileUpdated("Profile updated successfully!", PublicOf(d[id])), []))
  {
    var v := Patched(env, d[id], ProfileBody(Undefined, Undefined, Undefined, Undefined, Undefined));
    assert v == d[id];
    assert d[id := v] == d;
  }

  /** The reply leaves out the password digest but carries the pending verification token. */
  lemma ProfileReplyCarriesVerificationToken(env: Env, d: Directory, id: ObjectId, b: ProfileBody, p: Digest)
    requires Answered(ApplyProfile(env, d, id, b).reply, 200)
    ensures ApplyProfile(env, d, id, b).reply.body.profile.verificationToken == d[id].verificationToken
    ensures ApplyProfile(env, d, id, b).reply.body.profile == PublicOf(Patched(env, d[id], b).(password := p))
  {
  }

  /**
   A new password takes effect: logging in with it and an address that
   normalizes to the stored one succeeds.
   */
  lemma NewPasswordLogsIn(env: Env, d: Directory, id: ObjectId, b: ProfileBody, c: Credentials, now: nat)
    requires HashRoundTrip(env)
    requires Answered(ApplyProfile(env, d, id, b).reply, 200)
    requires b.password.Truthy()
    requires c.password == b.password && c.email.Truthy() && env.isEmail(c.email.s)
    requires env.normalizeEmail(c.email.s) == ApplyProfile(env, d, id, b).users[id].email
    ensures Answered(PostLogin(env, ApplyProfile(env, d, id, b).users, c, now), 200)
  {
    var d' := ApplyProfile(env, d, id, b).users;
    assert FindByEmail(d', d'[id].email) == Some(d'[id]);
  }

  /**
   The e-mail is stored as sent, without the normalization registration and
   login apply: when that normalization changes the address and no account
   holds the normalized form, logging in with the new address fails.
   */
  lemma UnnormalizedEmailLocksOut(env: Env, d: Directory, id: ObjectId, b: ProfileBody, now: nat)
    requires Answered(ApplyProfile(env, d, id, b).reply, 200)
    requires b.email.Truthy()
    requires !EmailTaken(ApplyProfile(env, d, id, b).users, env.normalizeEmail(b.email.s))
    ensures ApplyProfile(env, d, id, b).users[id].email == b.email.s
    ensures !Answered(PostLogin(env, ApplyProfile(env, d, id, b).users, Credentials(b.email, b.password), now), 200)
  {
  }
}
