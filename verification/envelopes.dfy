/**
 HTTP replies and the response helpers of `custom.middleware.js`:
 the `success`/`error` envelopes installed by `normalize_response`, the
 generic system-error reply and the 404 reply, plus the express app's final
 error handler that `next(err)` reaches.
 */
module Envelopes {
  import opened Base
  import opened Jwt
  import opened Records

  /** A `field -> message` errors object. */
  type ErrorMap = map<string, string>

  /** The `data` member of a success envelope (each user payload sits under `data.user`). */
  datatype Data =
    | NoData
    | NewAccount(firstName: string, lastName: string, email: string)
    | SignedIn(id: ObjectId, firstName: string, lastName: string, email: string)
    | Account(id: ObjectId, firstName: string, lastName: string, email: string, isVerified: bool)
    | CurrentUser(user: Summary)

  /** The JSON (or text) bodies the service sends. */
  datatype Body =
    | Text(text: string)
    | Message(message: string)
    | Flag(success: bool, message: string)
    | Status(key: string, value: string)
    | FieldErrors(errors: ErrorMap)
    | Success(data: Data, message: string)
    | Failure(errors: ErrorMap, message: string)
    | LoggedIn(message: string, token: Token, user: Summary)
    | NoteList(notes: map<ObjectId, Note>, message: string)
    | ProfileUpdated(message: string, profile: PublicUser)
    | TooManyRequests(error: string)

  datatype CookieValue = TokenValue(token: Token) | EmptyValue

  /** `maxAge` (milliseconds from now) or `expires` (milliseconds since the epoch). */
  datatype CookieLife = MaxAgeMs(ms: nat) | ExpiresAtMs(epochMs: nat)

  /** `maxAge: 60 * 60 * 1000`, the lifetime both login handlers give their cookie. */
  const OneHourMs: nat := 60 * 60 * 1000

  datatype CookieWrite = SetCookie(name: string, value: CookieValue, life: CookieLife)

  /** A reply sent to the client, or none at all (a handler that never answers). */
  datatype Reply = Reply(status: int, body: Body, cookies: seq<CookieWrite>) | NoReply

  /** The request was answered, with status `code`. */
  predicate Answered(r: Reply, code: int) {
    r.Reply? && r.status == code
  }

  /** A reply together with the users collection as the request leaves it. */
  datatype Exchange = Exchange(reply: Reply, users: Directory)

  /** `response.success(data = {}, message, status)`. */
  function SuccessEnvelope(data: Option<Data>, message: string, status: int): (r: Reply)
    ensures r.Reply? && r.status == status && r.cookies == []
    ensures r.body.Success? && r.body.message == message
    ensures data.None? ==> r.body.data == NoData
    ensures data.Some? ==> r.body.data == data.value
  {
    Reply(status, Success(data.GetOr(NoData), message), [])
  }

  /** `response.error(errors = {}, message, status)`. */
  function ErrorEnvelope(errors: Option<ErrorMap>, message: string, status: int): (r: Reply)
    ensures r.Reply? && r.status == status && r.cookies == []
    ensures r.body.Failure? && r.body.message == message
    ensures errors.None? ==> r.body.errors == map[]
    ensures errors.Some? ==> r.body.errors == errors.value
  {
    Reply(status, Failure(errors.GetOr(map[]), message), [])
  }

  /** The `status` and `statusCode` properties a thrown error may carry (undefined when None). */
  datatype SystemError = SystemError(status: Option<int>, statusCode: Option<int>)

  /** JavaScript truthiness of an optional number. */
  predicate TruthyNumber(n: Option<int>) {
    n.Some? && n.value != 0
  }

  /** `error.status || error.statusCode || 500`. */
  function SystemErrorStatus(e: SystemError): (s: int)
    ensures s != 0
    ensures TruthyNumber(e.status) ==> s == e.status.value
    ensures !TruthyNumber(e.status) && TruthyNumber(e.statusCode) ==> s == e.statusCode.value
    ensures !TruthyNumber(e.status) && !TruthyNumber(e.statusCode) ==> s == 500
  {
    if TruthyNumber(e.status) then e.status.value
    else if TruthyNumber(e.statusCode) then e.statusCode.value
    else 500
  }

  const InternalErrorMessage := "Internal server error. Please try again later."

  /** `normalize_system_error_response(error, response)`. */
  function SystemErrorResponse(e: SystemError): (r: Reply)
    ensures r.Reply? && r.status == SystemErrorStatus(e) && r.cookies == []
    ensures r.body == Flag(false, InternalErrorMessage)
  {
    Reply(SystemErrorStatus(e), Flag(false, InternalErrorMessage), [])
  }

  /** The reply for an error (database, validation or TypeError) that carries neither `status` nor `statusCode`. */
  function InternalErrorResponse(): (r: Reply)
    ensures r == Reply(500, Flag(false, InternalErrorMessage), [])
  {
    SystemErrorResponse(SystemError(None, None))
  }

  /** Whatever the error, the client sees only the generic message: the body never depends on it. */
  lemma SystemErrorHidesDetails(e1: SystemError, e2: SystemError)
    ensures SystemErrorResponse(e1).body == SystemErrorResponse(e2).body
  {
  }

  /** `normalize_response_404`. */
  function NotFoundResponse(): (r: Reply)
    ensures r.Reply? && r.status == 404 && r.body == Flag(false, "Not Found")
  {
    Reply(404, Flag(false, "Not Found"), [])
  }

  /** The app's final error handler, reached by `next(err)`: 500 "Something broke!". */
  function ServerFault(): (r: Reply)
    ensures r.Reply? && r.status == 500 && r.body == Text("Something broke!")
  {
    Reply(500, Text("Something broke!"), [])
  }

  /**
   The client's cookie jar after it applies one `Set-Cookie`: an empty value or
   an `expires` instant already past removes the cookie, a token value sets it.
   A `maxAge` lifetime is not tracked: a cookie so set stays in the jar for
   good, where a browser would drop it once the lifetime ran out. The token's
   own `exp` claim still bounds how long the cookie opens a session.
   */
  function StoreCookie(jar: map<string, Token>, w: CookieWrite, nowMs: nat): (r: map<string, Token>)
    ensures r.Keys - {w.name} == jar.Keys - {w.name}
    ensures forall n :: n in jar && n != w.name ==> n in r && r[n] == jar[n]
    ensures w.name in r <==> w.value.TokenValue? && !(w.life.ExpiresAtMs? && w.life.epochMs <= nowMs)
    ensures w.name in r ==> r[w.name] == w.value.token
  {
    if w.value.TokenValue? && !(w.life.ExpiresAtMs? && w.life.epochMs <= nowMs) then jar[w.name := w.value.token]
    else jar - {w.name}
  }

  /** The jar after every `Set-Cookie` of a reply, in order. */
  function StoreCookies(jar: map<string, Token>, ws: seq<CookieWrite>, nowMs: nat): (r: map<string, Token>)
    ensures forall n :: (forall i :: 0 <= i < |ws| ==> ws[i].name != n) ==> (n in r <==> n in jar)
    ensures forall n :: (forall i :: 0 <= i < |ws| ==> ws[i].name != n) && n in r ==> r[n] == jar[n]
    decreases |ws|
  {
    if |ws| == 0 then jar
    else StoreCookies(StoreCookie(jar, ws[0], nowMs), ws[1..], nowMs)
  }
}
