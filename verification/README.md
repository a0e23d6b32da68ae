# nanta-mobile account and notes service, modelled in Dafny

This project models the request-handling core of the nanta-mobile backend, an
Express service behind a mobile notes app:

- the v2 account API (`/api/auth`): registration, login, logout, the current
  user, the session check, and e-mail verification with its resend route;
- the older v1 account API: the rate limiter, the sanitizing validators, the
  token gate, the e-mail verification gate and the handlers behind them;
- the notes API (`/api/notes`): create, list, update and delete, each behind the
  v2 session gate and scoped to the note's owner;
- the profile update (`PUT /api/profile/update-info`);
- the response helpers of `custom.middleware.js` and the app's final error
  handler.

Each request is a pure function. Its inputs are the users collection (a map
from ObjectId to user record whose invariant is the unique e-mail index), the
note store, the request's cookies and body, and the clock. It returns the reply
(status, JSON body, `Set-Cookie` writes, or no reply at all) together with the
collections as the request leaves them. JSON Web Tokens are abstract values
that carry their claims, their `exp` and whether they were signed with the
server's secret. Library behaviour the service delegates to is passed in as an
`Env` value: `isEmail` and `normalizeEmail` from validator.js, and bcrypt's
`hash` and `compare`. Lemmas that need bcrypt's own promise take it as a
hypothesis (`HashRoundTrip`: a password matches its own digest). Mail delivery
and the rate limiter's verdict are boolean parameters.

Modules, in dependency order:

- `Base`: request-body values and JavaScript truthiness, `trim`, validator.js
  `escape`, and the two string lengths in play.
- `Jwt`: signing and verification.
- `Oracles`: the delegated library calls.
- `Records`: the User and Note schemas and the database operations.
- `Envelopes`: replies, the response helpers and the client's cookie jar.
- `Validation`: express-validator's error collection, with both ways of
  folding it into an errors object.
- Per source file: `AuthV2Middleware`, `AuthV2Controller`, `AuthV2Routes`,
  `AuthV1Middleware`, `AuthV1Controller`, `AuthV1Routes`, `Notes`,
  `NotesRoutes`, `Profile`.
- `AuthContrast`: how the two API versions answer the same registration body
  differently.

## Model

| member | source | states |
|---|---|---|
| Base.Trim | src/modules/notes/notes.model.js:5 | the trimmed string is a slice of the input with only JavaScript white space outside it, and it neither starts nor ends with white space |
| Base.TrimKeepsUnpadded | src/modules/notes/notes.model.js:5 | a string that neither starts nor ends with white space is its own trim |
| Base.TrimIdempotent | src/modules/notes/notes.model.js:5 | trimming an already trimmed string changes nothing |
| Base.EscapeChar | src/modules/auth/v1/auth.middleware.js:21 | `&`, `"`, `'`, `<`, `>`, `/`, `\` and the backtick become `&amp;`, `&quot;`, `&#x27;`, `&lt;`, `&gt;`, `&#x2F;`, `&#x5C;` and `&#96;`; every other character is kept |
| Base.Escape | src/modules/auth/v1/auth.middleware.js:21 | escaping never shortens a string |
| Base.EscapeAppend | src/modules/auth/v1/auth.middleware.js:21 | escaping works character by character: a concatenation escapes to the concatenation of the escaped parts |
| Base.EscapeRemovesMarkup | src/modules/auth/v1/auth.middleware.js:44-45 | no quote, angle bracket, slash, backslash or backtick survives escaping |
| Base.EscapePlainIsIdentity | src/modules/auth/v1/auth.middleware.js:51-52 | a string with no HTML-special character is unchanged by escaping |
| Base.EscapeKeepsEmptiness | src/modules/auth/v1/auth.middleware.js:21-24 | escaping gives "" exactly when the input is "", so `notEmpty` after `escape` judges the raw field |
| Base.VisibleWithinUtf16 | src/modules/auth/v2/auth.middleware.js:63-65 | the length `isLength` checks never exceeds the JavaScript `.length` the confirmation rule checks |
| Jwt.Verify | src/modules/auth/v2/auth.middleware.js:174-177 | a token verifies to its own claims only if it is signed and not expired; it is invalid exactly when it is not signed; expiry is reported only for signed tokens |
| Jwt.SignVerifyRoundTrip | src/modules/auth/v2/auth.controller.js:36-43 | a token signed at t verifies to exactly its claims before t + ttl and is expired from then on |
| Jwt.SignInjectiveInTime | src/modules/auth/v1/auth.controller.js:82-84 | re-signing the same claims gives the same token string iff it happens at the same second |
| Records.NewUser | src/modules/auth/v1/auth.model.js:9-10 | a new user starts unverified, with no verification token |
| Records.FindByEmail | src/modules/auth/v1/auth.middleware.js:32 | a lookup finds a user iff some user holds the address, and then the stored holder of that address |
| Records.FindById | src/modules/auth/v2/auth.middleware.js:182 | a lookup by id finds a user iff the id is stored, and then that record |
| Records.Create | src/modules/auth/v1/auth.model.js:5-8 | saving a new user succeeds iff its id and e-mail are free and every required field is non-empty; it then adds exactly that record |
| Records.Update | src/modules/auth/v1/auth.model.js:7 | saving an existing user succeeds iff it is stored and its e-mail is held by no other user; only its own record changes |
| Records.Verified | src/modules/auth/v1/auth.controller.js:69-70 | a verified record has its token spent and differs from the original in those two fields only |
| Records.UpdateSameEmailSucceeds | src/modules/auth/v1/auth.model.js:7 | a save that keeps the user's e-mail never fails on the unique index |
| Records.SummaryIgnoresPassword | src/modules/auth/v2/auth.controller.js:73-80 | the user summary in login and `/user` replies does not depend on the password digest |
| Records.PublicIgnoresPassword | src/modules/profile/profile.controller.js:43 | the profile reply's document does not depend on the password digest |
| Envelopes.SuccessEnvelope | src/custom.middleware.js:2-8 | `response.success` answers with the given status, message and data; missing data becomes `{}` |
| Envelopes.ErrorEnvelope | src/custom.middleware.js:10-16 | `response.error` answers with the given status, message and errors; missing errors become `{}` |
| Envelopes.SystemErrorStatus | src/custom.middleware.js:24 | the status is the error's truthy `status`, else its truthy `statusCode`, else 500, and never 0 |
| Envelopes.SystemErrorResponse | src/custom.middleware.js:21-30 | the system-error reply carries the computed status and the generic message |
| Envelopes.InternalErrorResponse | src/custom.middleware.js:21-30 | an error without a status is answered 500 with the generic message |
| Envelopes.SystemErrorHidesDetails | src/custom.middleware.js:26-29 | the body of a system-error reply is the same whatever the error was |
| Envelopes.NotFoundResponse | src/custom.middleware.js:32-37 | the 404 helper answers 404 "Not Found" |
| Envelopes.ServerFault | src/app.js:49-52 | an error passed to `next` is answered 500 "Something broke!" |
| Envelopes.StoreCookie | src/modules/auth/v2/auth.controller.js:98-103 | a cookie written with an empty value or an `expires` in the past is removed from the client, any other write stores its token, and no other cookie changes |
| Envelopes.StoreCookies | src/modules/auth/v2/auth.controller.js:233-240 | cookies a reply does not write keep their presence and value |
| Validation.NotEmptyErrors | src/modules/auth/v2/auth.middleware.js:31-33 | `notEmpty` reports a field iff its value is falsy |
| Validation.MappedIsFirstWins | src/modules/auth/v2/auth.middleware.js:88 | `mapped()` holds a field iff some error names it, and then that field's first message |
| Validation.FoldedIsLastWins | src/modules/auth/v1/auth.middleware.js:79-82 | the v1 `reduce` holds a field iff some error names it, and then that field's last message |
| Validation.FoldingsCoverPaths | src/modules/auth/v2/auth.middleware.js:88-91 | both errors objects have exactly the failing fields as keys, so each is empty iff nothing failed |
| Validation.FirstMessageAppend | src/modules/auth/v2/auth.middleware.js:29-85 | an error list's first message for a field comes from the earlier chain when that chain names the field |
| Validation.LastMessageAppend | src/modules/auth/v1/auth.middleware.js:19-73 | an error list's last message for a field comes from the later chain when that chain names the field |
| AuthV2Middleware.ValidateRegistrationInput | src/modules/auth/v2/auth.middleware.js:28-94 | registration proceeds iff names are present, the e-mail is well formed and its normalized form is free, the password has at least 8 characters and the confirmation equals it; it hands on the normalized e-mail; a refusal has a non-empty errors object |
| AuthV2Middleware.RegistrationReportsFirstMessage | src/modules/auth/v2/auth.middleware.js:88-91 | the message reported for e-mail, password or confirmation is the first failure of that field's rule chain |
| AuthV2Middleware.MissingEmailReportsEnterEmail | src/modules/auth/v2/auth.middleware.js:41-47 | a missing e-mail is reported as "Please enter your email" |
| AuthV2Middleware.DuplicateEmailReportedOnlyAfterFormat | src/modules/auth/v2/auth.middleware.js:44-56 | "Email is already registered" is reported iff the e-mail is present, well formed and its normalized form is held |
| AuthV2Middleware.EmailFailureSkipsLookup | src/modules/auth/v2/auth.middleware.js:41-56 | with a missing or malformed e-mail, `bail` ends the chain, so the outcome does not depend on the users collection |
| AuthV2Middleware.MismatchOnlyForLongPassword | src/modules/auth/v2/auth.middleware.js:72-82 | "Passwords do not match" is reported iff the confirmation is present and differs from a present password at least 8 units long |
| AuthV2Middleware.ShortPasswordOnlyLengthError | src/modules/auth/v2/auth.middleware.js:63-82 | a short password earns the length message and no confirmation error |
| AuthV2Middleware.ValidateLoginInput | src/modules/auth/v2/auth.middleware.js:113-155 | login proceeds iff the e-mail is well formed, its normalized form is held and the password matches that user's digest; it hands on that stored user; every failure gets the one `login` error |
| AuthV2Middleware.BearerToken | src/modules/auth/v2/auth.middleware.js:165-169 | an extracted bearer token is what follows the "Bearer " prefix of the header |
| AuthV2Middleware.ValidateSessionToken | src/modules/auth/v2/auth.middleware.js:162-196 | a missing cookie is Unauthorized; a bound user is the stored user the verified session-typed token names |
| AuthV2Middleware.SessionGateBindsIffAccepted | src/modules/auth/v2/auth.middleware.js:171-189 | the gate binds a user iff the cookie is signed, unexpired, session-typed and names a stored user, and then binds that user |
| AuthV2Middleware.SessionGateUnauthorizedCases | src/modules/auth/v2/auth.middleware.js:171-195 | a missing cookie, expiry, a foreign type or an unknown user is answered Unauthorized; a bad token string or a payload without `user` goes to the error handler |
| AuthV2Middleware.SessionGateIgnoresBearer | src/modules/auth/v2/auth.middleware.js:165-171 | the session gate's outcome does not depend on the Authorization header |
| AuthV2Middleware.ValidateVerificationToken | src/modules/auth/v2/auth.middleware.js:203-227 | a confirmed token verifies, is verification-typed and equals the stored token of the user it names |
| AuthV2Middleware.VerificationGateConfirmsIffAccepted | src/modules/auth/v2/auth.middleware.js:205-223 | the gate confirms iff the token is signed, unexpired, verification-typed, names a stored user and is that user's stored token |
| AuthV2Controller.RegisteredUser | src/modules/auth/v2/auth.controller.js:33-43 | the saved user holds the digest of the password, is unverified, and carries a 12-hour verification token naming it |
| AuthV2Controller.RegisterUser | src/modules/auth/v2/auth.controller.js:31-51 | registration answers 200 iff the save succeeds, and then adds exactly the new user; otherwise the error handler answers and nothing is stored |
| AuthV2Controller.InitializeSessionCookie | src/modules/auth/v2/auth.controller.js:233-244 | the session cookie is `nanta-session`, holds the token, and lives one hour |
| AuthV2Controller.LoginUser | src/modules/auth/v2/auth.controller.js:58-81 | login signs a one-hour session token for the user, sets it as the session cookie and returns it with the user's summary |
| AuthV2Controller.LogoutUser | src/modules/auth/v2/auth.controller.js:96-107 | logout answers 200 and overwrites the session cookie with an empty value expired at the epoch |
| AuthV2Controller.GetUserData | src/modules/auth/v2/auth.controller.js:122-145 | without a user the handler answers 401; with one it answers that user's summary |
| AuthV2Controller.AuthenticateUser | src/modules/auth/v2/auth.controller.js:159-161 | the handler answers 200 Authorized |
| AuthV2Controller.VerifyUserEmail | src/modules/auth/v2/auth.controller.js:172-181 | as written: answers Verified and leaves the users collection unchanged |
| AuthV2Controller.VerifyUserEmailFixed | src/modules/auth/v2/auth.controller.js:172-181 | with the save: answers Verified iff the save succeeds, storing the user verified with its token spent |
| AuthV2Controller.SendVerificationEmail | src/modules/auth/v2/auth.controller.js:188-226 | as written: the only reply it ever gives is the error handler's, and it gives no reply exactly when the body carries a user and the mail went out |
| AuthV2Controller.SendVerificationEmailFixed | src/modules/auth/v2/tests/send-verification-email.test.js:64-65 | answers 200 `email_status: Sent` iff the mail went out |
| AuthV2Controller.RegisteredPasswordMatches | src/modules/auth/v2/auth.controller.js:34-35 | the stored digest matches the password the user registered with |
| AuthV2Controller.RegisteredTokenVerifies | src/modules/auth/v2/auth.controller.js:36-44 | the stored verification token passes the verification gate for the new user throughout its 12 hours |
| AuthV2Controller.LoginCookieBindsUser | src/modules/auth/v2/auth.controller.js:61-66 | the cookie login sets makes the session gate bind the same user for the next hour |
| AuthV2Controller.LogoutEndsSession | src/modules/auth/v2/auth.controller.js:98-103 | after logout the client holds no session cookie and the session gate answers Unauthorized |
| AuthV2Controller.LogoutKeepsOtherCookies | src/modules/auth/v2/auth.controller.js:98-103 | logout leaves every other cookie as it was |
| AuthV2Routes.SessionRefusal | src/modules/auth/v2/auth.middleware.js:171-195 | the gate's refusal is 400 Unauthorized, or the error handler's 500 for a forwarded error |
| AuthV2Routes.PostRegister | src/modules/auth/v2/auth.routes.js:12 | an unacceptable body is answered 400 with a non-empty errors object and stores nothing; a 200 means the new user is stored with the normalized e-mail, the password's digest and unverified |
| AuthV2Routes.PostLogin | src/modules/auth/v2/auth.routes.js:13 | login answers 200 iff the credentials are acceptable, with the summary of the stored user holding the normalized e-mail; otherwise 400 with the login error |
| AuthV2Routes.PostLogout | src/modules/auth/v2/auth.routes.js:14 | logout is ungated and always expires the session cookie |
| AuthV2Routes.GetUser | src/modules/auth/v2/auth.routes.js:17 | `/user` answers 200 iff the session is accepted, with the summary of the user it names |
| AuthV2Routes.GetAuthenticate | src/modules/auth/v2/auth.routes.js:18 | `/user/authenticate` answers Authorized iff the session is accepted, and otherwise 400 Unauthorized or 500 |
| AuthV2Routes.PostResend | src/modules/auth/v2/auth.routes.js:19 | as written: the resend route never answers 200 |
| AuthV2Routes.PostResendFixed | src/modules/auth/v2/auth.routes.js:19 | with the bound user read: answers Sent iff the session is accepted and the mail went out |
| AuthV2Routes.PostVerifyEmail | src/modules/auth/v2/auth.routes.js:20 | as written: answers Verified iff the token is accepted, otherwise 400 Invalid token, and never changes the users collection |
| AuthV2Routes.PostVerifyEmailFixed | src/modules/auth/v2/auth.routes.js:20 | with the save: answers Verified iff the token is accepted, and stores that user verified with its token spent |
| AuthV2Routes.GetUserNeverAnswers401 | src/modules/auth/v2/auth.controller.js:125-131 | the handler's 401 branch is unreachable behind the session gate |
| AuthV2Routes.RegisterThenLoginAuthorizesForOneHour | src/modules/auth/v2/auth.routes.js:12-18 | after registering, logging in with the same e-mail and password succeeds, and its cookie is Authorized for one hour and Unauthorized afterwards |
| AuthV2Routes.ReRegistrationRefused | src/modules/auth/v2/auth.middleware.js:49-56 | registering the same body again is refused with "Email is already registered" and stores nothing |
| AuthV2Routes.TokenTypesDoNotMix | src/modules/auth/v2/auth.middleware.js:179-180 | a verification token is never Authorized as a session and a session token never verifies an e-mail |
| AuthV2Routes.VerificationReplayAsWritten | src/modules/auth/v2/auth.controller.js:172-181 | as written: a verification link answers Verified again and again while it lives, and nothing is stored |
| AuthV2Routes.VerificationSingleUseFixed | src/modules/auth/v2/auth.controller.js:172-181 | with the save: the first use verifies the account and a second use is answered Invalid token |
| AuthV2Routes.ResendNeverSucceedsAsWritten | src/modules/auth/v2/auth.controller.js:188-210 | as written: a logged-in client gets the 500 from the resend route, while the corrected route answers Sent iff the mail went out |
| AuthV1Middleware.Hit | src/modules/auth/v1/auth.middleware.js:8-16 | the first request, or one after the window ran out, opens a fresh 60-second window and passes; any other is counted and passes iff fewer than 20 came before it in the window |
| AuthV1Middleware.Admissions | src/modules/auth/v1/auth.middleware.js:8-16 | each request of a client gets a verdict; the first always passes; when all fall within the window the first one opened, request i passes iff i < 20 |
| AuthV1Middleware.EscapedEmail | src/modules/auth/v1/auth.middleware.js:21-24 | the escaped e-mail is empty iff the field was empty or missing |
| AuthV1Middleware.ValidateRegistration | src/modules/auth/v1/auth.middleware.js:18-88 | registration proceeds iff the escaped e-mail is well formed and free, names are present, the password has at least 8 characters and the confirmation equals it; it hands on trimmed and escaped names and the normalized escaped e-mail |
| AuthV1Middleware.V1EmailFailureSkipsLookup | src/modules/auth/v1/auth.middleware.js:20-37 | with a missing e-mail, or one malformed after escaping, `bail` ends the chain, so the outcome does not depend on the users collection |
| AuthV1Middleware.V1MissingEmailReportsInvalid | src/modules/auth/v1/auth.middleware.js:22-28 | a missing e-mail is reported as "Please enter a valid email", because the later message overwrites the earlier |
| AuthV1Middleware.V1MismatchReportedIffDifferent | src/modules/auth/v1/auth.middleware.js:63-72 | "Passwords do not match" is reported iff the confirmation differs from the password, whatever else failed |
| AuthV1Middleware.ValidateLogIn | src/modules/auth/v1/auth.middleware.js:90-143 | login proceeds iff the escaped e-mail is well formed, held, and the password matches; every failure is 400 with an empty errors object |
| AuthV1Middleware.ValidateToken | src/modules/auth/v1/auth.middleware.js:145-158 | the gate passes iff the cookie verifies, whatever its type, handing on its claims; missing and invalid cookies get distinct 401 messages |
| AuthV1Middleware.ClaimedEmail | src/modules/auth/v1/auth.middleware.js:172 | an e-mail is read only from a top-level payload |
| AuthV1Middleware.FindByClaimedEmail | src/modules/auth/v1/auth.controller.js:62-63 | a payload finds a user iff it carries a top-level e-mail some user holds |
| AuthV1Middleware.ValidateVerificationToken | src/modules/auth/v1/auth.middleware.js:160-189 | every refusal is 401; a pass hands on an unverified stored user whose stored token is the presented verification-typed token |
| AuthV1Middleware.VerificationGateOrder | src/modules/auth/v1/auth.middleware.js:164-181 | the refusal message is the first failing check, in order: jwt error, token type, user not found, already verified, token mismatch |
| AuthV1Controller.V1VerificationToken | src/modules/auth/v1/auth.controller.js:82 | the verification token names the user at the top level, is typed `email_verification` and lives 12 hours |
| AuthV1Controller.V1SessionToken | src/modules/auth/v1/auth.controller.js:35 | the login token names the user at the top level, has no type and lives one hour |
| AuthV1Controller.WithFreshToken | src/modules/auth/v1/auth.controller.js:84 | a fresh token replaces the stored one and nothing else changes |
| AuthV1Controller.SendVerificationEmail | src/modules/auth/v1/auth.controller.js:75-112 | an unknown e-mail is answered with the generic 500; for a known one the fresh token is stored, and there is no reply iff the mail went out |
| AuthV1Controller.V1NewUser | src/modules/auth/v1/auth.controller.js:14-16 | the new user holds the given e-mail and the password's digest and is unverified |
| AuthV1Controller.RegisterUser | src/modules/auth/v1/auth.controller.js:10-29 | registration answers 201 iff the save succeeds and the mail went out; a saved user keeps its record even when the mail fails; a failed save leaves the request unanswered |
| AuthV1Controller.LogInUser | src/modules/auth/v1/auth.controller.js:31-48 | login answers 200 with the stored user and sets its one-hour token cookie; an unknown e-mail gets the generic 500 |
| AuthV1Controller.LogOutUser | src/modules/auth/v1/auth.controller.js:50-59 | logout expires the token cookie at the epoch and answers 200 |
| AuthV1Controller.GetUser | src/modules/auth/v1/auth.controller.js:61-66 | the handler answers the account the token's e-mail names, and gives no reply iff there is none |
| AuthV1Controller.VerifyEmail | src/modules/auth/v1/auth.controller.js:68-73 | a successful save stores the user verified with its token spent and answers 200 |
| AuthV1Routes.Refusal | src/modules/auth/v1/auth.middleware.js:187 | a gate's refusal is the error envelope with an empty errors object |
| AuthV1Routes.PostRegister | src/modules/auth/v1/auth.routes.js:7 | a limited client gets 429; an unacceptable body gets 400 with a non-empty errors object and stores nothing; a 201 means the user is stored with the normalized escaped e-mail and the password's digest, unverified |
| AuthV1Routes.PostLogIn | src/modules/auth/v1/auth.routes.js:8 | an admitted login answers 200 iff the credentials are acceptable, setting a cookie whose token names the stored user in the reply |
| AuthV1Routes.PostLogOut | src/modules/auth/v1/auth.routes.js:9 | logout is ungated and always expires the token cookie |
| AuthV1Routes.GetUserRoute | src/modules/auth/v1/auth.routes.js:11 | `/user` answers 200 iff the cookie verifies and its e-mail names a stored user |
| AuthV1Routes.PostVerifyEmail | src/modules/auth/v1/auth.routes.js:13 | a refused token changes nothing; a passed one stores its user verified with its token spent |
| AuthV1Routes.PostResendVerification | src/modules/auth/v1/auth.routes.js:15-18 | the route answers "Verification email sent" iff the token passes, names a stored user, and the mail went out |
| AuthV1Routes.V1VerificationSingleUse | src/modules/auth/v1/auth.middleware.js:177-178 | a verification link works once; the next use is refused with "User already verified" |
| AuthV1Routes.V1VerificationTokenOpensSession | src/modules/auth/v1/auth.middleware.js:145-158 | a stored verification token placed in the login cookie reads its user's account, because the gate checks no type |
| AuthV1Routes.V1ResendRetiresOldLink | src/modules/auth/v1/auth.middleware.js:180-181 | after a resend, a link mailed earlier is refused with "Invalid token" |
| AuthV1Routes.V1LogOutEndsSession | src/modules/auth/v1/auth.controller.js:50-59 | after logout the client holds no token cookie, the token gate answers 401 "Unauthorized" and so does `GET /user` |
| AuthV1Routes.V1FreshAccountVerifiesAndLogsIn | src/modules/auth/v1/auth.controller.js:68-73 | an unverified account holding its fresh link is verified by it, and the credentials it was made from then log in |
| AuthV1Routes.V1RegisterVerifyLogIn | src/modules/auth/v1/auth.routes.js:7-13 | after registering, the mailed link verifies the account, and logging in with the same fields succeeds |
| Notes.NewTitle | src/modules/notes/notes.controller.js:14 | a falsy title takes the default "Blank Note"; any other is trimmed |
| Notes.CreateNote | src/modules/notes/notes.controller.js:5-22 | without a user the reply is 401; with one, a note is stored under the user iff its title and content are non-empty and the id is free, and otherwise the reply is the generic 500 |
| Notes.OwnedBy | src/modules/notes/notes.controller.js:33 | the listed notes are exactly the stored notes of that owner |
| Notes.GetNotes | src/modules/notes/notes.controller.js:25-39 | without a user the reply is 401; with one, it lists exactly that user's notes |
| Notes.PatchedTitle | src/modules/notes/notes.controller.js:48-52 | an omitted title is kept, null is stored as null, and a string is trimmed |
| Notes.PatchedContent | src/modules/notes/notes.controller.js:48-52 | an omitted content is kept, and any other value is stored as sent |
| Notes.UpdateNote | src/modules/notes/notes.controller.js:42-62 | a note the user does not own is 404 and nothing changes; an owned note gets the patched fields and no other note changes |
| Notes.DeleteNote | src/modules/notes/notes.controller.js:65-80 | a note the user does not own is 404 and nothing changes; an owned note is removed and nothing else changes |
| Notes.CreatedNoteListedForOwnerOnly | src/modules/notes/notes.controller.js:14-33 | a created note appears in its owner's list with its stored title, and no other user's list changes |
| Notes.CreatedTitleIsTrimmed | src/modules/notes/notes.model.js:5 | a created note's title has no surrounding white space, including the default |
| Notes.DefaultTitleIsTrimmed | src/modules/notes/notes.model.js:5 | the default title is unchanged by trimming |
| Notes.UpdatedTitleIsTrimmed | src/modules/notes/notes.controller.js:48-52 | a title set by an update has no surrounding white space |
| Notes.UpdateIdempotent | src/modules/notes/notes.controller.js:48-52 | repeating an update changes nothing more |
| Notes.ForeignNotesUntouchable | src/modules/notes/notes.controller.js:48-56 | updating or deleting another user's note answers 404 and changes nothing |
| Notes.WritesKeepOtherListsIntact | src/modules/notes/notes.controller.js:70 | one user's updates and deletes leave every other user's list as it was |
| Notes.DeletedNoteIsGone | src/modules/notes/notes.controller.js:70-74 | after a delete, updating or deleting the same note answers 404 |
| NotesRoutes.PostCreate | src/modules/notes/notes.routes.js:8 | a refused session stores nothing; an accepted one creates the note for the user it names |
| NotesRoutes.GetAll | src/modules/notes/notes.routes.js:11 | the list answers 200 iff the session is accepted, with exactly that user's notes |
| NotesRoutes.PutNote | src/modules/notes/notes.routes.js:14 | a refused session changes nothing; an accepted one updates on behalf of the user it names |
| NotesRoutes.DeleteNoteRoute | src/modules/notes/notes.routes.js:17 | a refused session changes nothing; an accepted one deletes on behalf of the user it names |
| NotesRoutes.NotesRoutesNeverAnswer401 | src/modules/notes/notes.controller.js:9-11 | the handlers' 401 branches are unreachable behind the session gate |
| NotesRoutes.OnlyTheOwnerChangesANote | src/modules/notes/notes.routes.js:14-17 | a note changes or disappears only through a request whose accepted session names its owner |
| Profile.Patched | src/modules/profile/profile.controller.js:15-34 | names, e-mail and password change only when sent truthy, the password as its digest; the picture changes whenever it is sent; the id and verification state never change |
| Profile.ApplyProfile | src/modules/profile/profile.controller.js:27-52 | a short password is 400 with nothing written; a missing user is 404; otherwise the reply is 200 iff the new e-mail is free, with the patched record stored and returned without its password |
| Profile.UpdateProfile | src/modules/profile/profile.controller.js:5-13 | as written: a request without a user gets the generic 500 |
| Profile.UpdateProfileFixed | src/modules/profile/profile.controller.js:9-13 | corrected: a request without a user gets 401 "User not authenticated!" |
| Profile.PutUpdateInfo | src/modules/profile/profile.routes.js:9 | a refused session writes nothing and is not 200; an accepted one updates the user it names |
| Profile.MissingUserAnswer | src/modules/profile/profile.controller.js:9-13 | the as-written handler answers 500 where the corrected one answers 401 |
| Profile.ShortPasswordWritesNothing | src/modules/profile/profile.controller.js:27-32 | a short password rejects the whole update: nothing is written |
| Profile.ProfileKeepsVerification | src/modules/profile/profile.controller.js:18-25 | a profile update never changes the verification state or token |
| Profile.EmptyBodyChangesNothing | src/modules/profile/profile.controller.js:18-52 | a body that sets nothing leaves the record unchanged and returns it |
| Profile.ProfileReplyCarriesVerificationToken | src/modules/profile/profile.controller.js:43-52 | the reply leaves out the password but carries the pending verification token |
| Profile.NewPasswordLogsIn | src/modules/profile/profile.controller.js:33 | after an update, logging in with the new password succeeds |
| Profile.UnnormalizedEmailLocksOut | src/modules/profile/profile.controller.js:21 | the new e-mail is stored as sent; if normalization changes it, logging in with it fails |
| AuthContrast.MissingEmailMessagesDiffer | src/modules/auth/v1/auth.middleware.js:20-28 | a missing e-mail is "Please enter your email" in v2 but "Please enter a valid email" in v1 |
| AuthContrast.ShortPasswordMismatchOnlyInV1 | src/modules/auth/v1/auth.middleware.js:63-72 | a short password with a different confirmation gets a mismatch error in v1 only |

## Left out

- Cryptography: JWT signatures and bcrypt are abstract. A token records whether it was signed with the secret. bcrypt is the `hash` and `compare` pair in `Env`, and its cost factor and salts are not modelled.
- Mail transport, template files and their rendering are not modelled. Whether the mail went out is a boolean parameter.
- The rate limiter is modelled as one client's fixed 60-second window (`Hit`, `Admissions`). Its store, client keying and rate-limit headers are not modelled. The v1 routes take the limiter's verdict as the `admitted` parameter.
- Cookie attributes (`httpOnly`, `secure`, `sameSite`), CORS, JSON parsing and the cookie parser are not modelled. The request's cookies are a map from name to token, and an empty cookie counts as absent.
- The v1 router is not mounted by `app.js`, and `normalize_response` is never installed there. v1 is modelled as if both were in place.
- A v1 handler whose error reaches `normalize_system_error_response` without the response object throws again inside its own catch. Such a request is modelled as unanswered (`NoReply`).
- A v1 payload shaped the v2 way carries no top-level `email`. The lookup with that missing address is taken to find nobody.
- `auth/v2/auth.model.js` is not part of this model. The User record follows `auth/v1/auth.model.js` plus the `profile_pic` field the v2 handlers read.
- `created_at` and `updated_at` timestamps are not modelled, and neither is note ordering. The note schema has no timestamps, so `sort({updated_at: -1})` has nothing to order by, and a user's notes are returned as a map.
- Malformed ObjectIds are not modelled: an id is a natural number, so the `CastError` a bad `:id` causes cannot arise.
- Notes.UpdateNote and Notes.DeleteNote take the owner's id and do not model the `user: undefined` filter a request without a user would build. Both routes always supply the gate's user.
- The catch branches of `login_user`, `logout_user` and `get_user_data` are not modelled. They would need a throw that the model's inputs cannot produce.
- The 404 handler in `app.js` is not modelled, and the error handler is modelled only by its reply (`ServerFault`). Error logging is left out.
- AuthV2Middleware.ValidateLoginInput: the errors object is keyed by `login`, and the model keeps the message itself rather than the nested `{msg: ...}` object.
- Profile.ApplyProfile: `runValidators` on the update is taken to pass. The only writable required field a truthy update could empty is the password, and a bcrypt digest is never empty.
- Profile.Patched: the profile's e-mail is stored without the normalization that registration and login apply. The model states this (`Profile.UnnormalizedEmailLocksOut`) and does not repair it.
- AuthV2Middleware.ValidateSessionToken: the bearer token parsed from the `Authorization` header is never used by the source. The model parses it and proves the outcome independent of it (`SessionGateIgnoresBearer`).
- AuthV2Middleware.ValidateRegistrationInput and AuthV2Routes.PostRegister: each field's entry in the errors object keeps only its message. `mapped()` sends the whole error (`type`, `value`, `msg`, `path`, `location`), so the 400 reply also echoes the submitted value, the password included.
- Body fields are modelled as a string, `null` or missing. A JSON body may also carry numbers, booleans, arrays or objects (a numeric profile password, `password: {}`); those inputs are not modelled.
- A handler that never answers (`NoReply`: AuthV1Controller.GetUser, AuthV1Controller.VerifyEmail, AuthV1Controller.RegisterUser) assumes Express 4 on a Node.js version that does not exit on an unhandled rejection. On Node.js 15 or later the process ends instead, and under Express 5 the rejected handler reaches the 500 error handler.
- Notes.PatchedTitle and Notes.PatchedContent: a field missing from the body leaves the stored value alone because Mongoose 6 and later drop `undefined` keys from an update. Older Mongoose versions would behave differently.
- Envelopes.StoreCookie: the one-hour `maxAge` of the login cookie is not tracked, so such a cookie never leaves the jar by age. The token's `exp` claim still ends the session.
- Concurrency is not modelled. Each request runs alone against the collections as the previous request left them, so the unawaited `user.save()` in the v1 resend is taken to complete first.

## Findings

| source | as written | input that shows it | evidently intended | confidence | as-written member | corrected member |
|---|---|---|---|---|---|---|
| src/modules/auth/v2/auth.controller.js:172-181 | `verify_user_email` sets `is_verified` and clears `verification_token` on the document but never saves it | a registered user posts their verification link twice within 12 hours: both answers are Verified and the stored user stays unverified | the handler saves the verified user, so the link works once | not executed; high | AuthV2Routes.VerificationReplayAsWritten | AuthV2Routes.VerificationSingleUseFixed |
| src/modules/auth/v2/auth.controller.js:188-226 | the resend handler reads `req.body.user`, which the session gate on its route (auth.routes.js:19) never sets; when it does get past that, it returns the mail receipt without answering | a logged-in client posts to `/user/verify-email/resend` with an empty body and gets 500 "Something broke!"; the route's own test expects 200 `email_status: Sent` | mail the bound user (`req.user`) and answer 200 `{email_status: "Sent"}` | not executed; high | AuthV2Routes.ResendNeverSucceedsAsWritten | AuthV2Routes.PostResendFixed |
| src/modules/profile/profile.controller.js:9-13 | the 401 branch puts the whole `request` object into the JSON body; that object is circular, so serializing it throws and the catch answers 500 | a call of `update_profile` with no `request.user` (not reachable through the session gate) | answer 401 "User not authenticated!" | not executed; medium | Profile.MissingUserAnswer | Profile.UpdateProfileFixed |
