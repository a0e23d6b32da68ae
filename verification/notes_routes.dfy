/**
 The notes router (`notes/notes.routes.js`): every route runs the v2 session
 gate first, and the handler acts for the user the gate bound.
 */
module NotesRoutes {
  import opened Base
  import opened Jwt
  import opened Records
  import opened Envelopes
  import opened AuthV2Middleware
  import opened AuthV2Routes
  import opened Notes

  /** The session gate's refusal, with the notes untouched. */
  function Refused(c: SessionCheck, store: NoteStore): (r: NoteExchange)
    requires !c.Bound?
    ensures r.notes == store && r.reply == SessionRefusal(c)
  {
    NoteExchange(SessionRefusal(c), store)
  }

  /** `POST /create`. */
  function PostCreate(d: Directory, cookies: map<string, Token>, authorization: Option<string>, now: nat,
                      store: NoteStore, title: Value, content: Value, freshId: ObjectId): (r: NoteExchange)
    ensures !SessionAccepted(d, cookies, now) ==> r.notes == store && !Answered(r.reply, 200)
    ensures SessionAccepted(d, cookies, now) ==>
      r == CreateNote(store, Some(d[cookies[SessionCookie].claims.subject.id]), title, content, freshId)
  {
    SessionGateBindsIffAccepted(d, cookies, authorization, now);
    match ValidateSessionToken(d, cookies, authorization, now)
    case Bound(u) => CreateNote(store, Some(u), title, content, freshId)
    case _ => Refused(ValidateSessionToken(d, cookies, authorization, now), store)
  }

  /** `GET /`. */
  function GetAll(d: Directory, cookies: map<string, Token>, authorization: Option<string>, now: nat, store: NoteStore): (r: Reply)
    ensures Answered(r, 200) <==> SessionAccepted(d, cookies, now)
    ensures SessionAccepted(d, cookies, now) ==>
      r.body == NoteList(OwnedBy(store, cookies[SessionCookie].claims.subject.id), "Notes retrieved successfully!")
  {
    SessionGateBindsIffAccepted(d, cookies, authorization, now);
    match ValidateSessionToken(d, cookies, authorization, now)
    case Bound(u) => GetNotes(store, Some(u))
    case _ => SessionRefusal(ValidateSessionToken(d, cookies, authorization, now))
  }

  /** `PUT /:id`. */
  function PutNote(d: Directory, cookies: map<string, Token>, authorization: Option<string>, now: nat,
                   store: NoteStore, id: ObjectId, title: Value, content: Value): (r: NoteExchange)
    ensures !SessionAccepted(d, cookies, now) ==> r.notes == store && !Answered(r.reply, 200)
    ensures SessionAccepted(d, cookies, now) ==>
      r == UpdateNote(store, cookies[SessionCookie].claims.subject.id, id, title, content)
  {
    SessionGateBindsIffAccepted(d, cookies, authorization, now);
    match ValidateSessionToken(d, cookies, authorization, now)
    case Bound(u) => UpdateNote(store, u.id, id, title, content)
    case _ => Refused(ValidateSessionToken(d, cookies, authorization, now), store)
  }

  /** `DELETE /:id`. */
  function DeleteNoteRoute(d: Directory, cookies: map<string, Token>, authorization: Option<string>, now: nat,
                           store: NoteStore, id: ObjectId): (r: NoteExchange)
    ensures !SessionAccepted(d, cookies, now) ==> r.notes == store && !Answered(r.reply, 200)
    ensures SessionAccepted(d, cookies, now) ==> r == DeleteNote(store, cookies[SessionCookie].claims.subject.id, id)
  {
    SessionGateBindsIffAccepted(d, cookies, authorization, now);
    match ValidateSessionToken(d, cookies, authorization, now)
    case Bound(u) => DeleteNote(store, u.id, id)
    case _ => Refused(ValidateSessionToken(d, cookies, authorization, now), store)
  }

  /** Behind the gate the handlers' own 401 answers cannot happen. */
  lemma NotesRoutesNeverAnswer401(d: Directory, cookies: map<string, Token>, authorization: Option<string>, now: nat,
                                  store: NoteStore, title: Value, content: Value, freshId: ObjectId)
    ensures !Answered(PostCreate(d, cookies, authorization, now, store, title, content, freshId).reply, 401)
    ensures !Answered(GetAll(d, cookies, authorization, now, store), 401)
  {
  }

  /** A note changes only through a request whose session names its owner. */
  lemma OnlyTheOwnerChangesANote(d: Directory, cookies: map<string, Token>, authorization: Option<string>, now: nat,
                                 store: NoteStore, id: ObjectId, title: Value, content: Value)
    requires id in store
    requires PutNote(d, cookies, authorization, now, store, id, title, content).notes[id] != store[id]
             || id !in DeleteNoteRoute(d, cookies, authorization, now, store, id).notes
    ensures SessionAccepted(d, cookies, now) && cookies[SessionCookie].claims.subject.id == store[id].owner
  {
  }
}
