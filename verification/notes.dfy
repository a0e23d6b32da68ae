/**
 The notes handlers (`notes/notes.controller.js`) over the notes collection
 (`notes/notes.model.js`). Every handler works on the notes of the request's
 user only: a note is found by its id AND its owner.
 */
module Notes {
  import opened Base
  import opened Records
  import opened Envelopes

  const MsgNotAuthenticated := "User not authenticated"
  const MsgNoteMissing := "Note not found or unauthorized!"

  /** The notes collection as a request leaves it, with the reply. */
  datatype NoteExchange = NoteExchange(reply: Reply, notes: NoteStore)

  /**
   The title a new note is saved with: a falsy title is left out and takes the
   schema default, any other is trimmed by the schema's `trim` setter.
   */
  function NewTitle(title: Value): (t: string)
    ensures !title.Truthy() ==> t == DefaultTitle
    ensures title.Truthy() ==> t == Trim(title.s)
  {
    if title.Truthy() then Trim(title.s) else DefaultTitle
  }

  /** Whether a new note passes the schema's `required` validators (an empty string fails them). */
  predicate Storable(title: string, content: Value) {
    title != "" && content.Truthy()
  }

  /**
   `create_note`. Without a user it answers 401; a note that fails validation
   or whose id is taken is a save error, answered with the generic 500.
   */
  function CreateNote(store: NoteStore, principal: Option<User>, title: Value, content: Value, freshId: ObjectId): (r: NoteExchange)
    ensures principal.None? ==> r == NoteExchange(Reply(401, Message(MsgNotAuthenticated), []), store)
    ensures Answered(r.reply, 200) <==> principal.Some? && Storable(NewTitle(title), content) && freshId !in store
    ensures Answered(r.reply, 200) ==>
      && r.reply.body == Text("Note created successfully!")
      && r.notes == store[freshId := Note(freshId, Str(NewTitle(title)), content, principal.value.id)]
    ensures principal.Some? && !Answered(r.reply, 200) ==> r == NoteExchange(InternalErrorResponse(), store)
  {
    match principal
    case None => NoteExchange(Reply(401, Message(MsgNotAuthenticated), []), store)
    case Some(u) =>
      var t := NewTitle(title);
      if !Storable(t, content) || freshId in store then NoteExchange(InternalErrorResponse(), store)
      else NoteExchange(Reply(200, Text("Note created successfully!"), []), store[freshId := Note(freshId, Str(t), content, u.id)])
  }

  /** `Note.find({user})`: the owner's notes. */
  function OwnedBy(store: NoteStore, owner: ObjectId): (m: map<ObjectId, Note>)
    ensures forall k :: k in m <==> k in store && store[k].owner == owner
    ensures forall k :: k in m ==> m[k] == store[k]
  {
    map k | k in store && store[k].owner == owner :: store[k]
  }

  /** `get_notes`. */
  function GetNotes(store: NoteStore, principal: Option<User>): (r: Reply)
    ensures principal.None? ==> r == Reply(401, Message(MsgNotAuthenticated), [])
    ensures principal.Some? ==>
      && r.Reply? && r.status == 200 && r.body.NoteList? && r.body.message == "Notes retrieved successfully!"
      && (forall k :: k in r.body.notes <==> k in store && store[k].owner == principal.value.id)
      && (forall k :: k in r.body.notes ==> r.body.notes[k] == store[k])
  {
    match principal
    case None => Reply(401, Message(MsgNotAuthenticated), [])
    case Some(u) => Reply(200, NoteList(OwnedBy(store, u.id), "Notes retrieved successfully!"), [])
  }

  /**
   The title after an update: a field left out of the body is not touched, a
   null is stored as null, and a string goes through the `trim` setter.
   */
  function PatchedTitle(current: Value, sent: Value): (t: Value)
    ensures sent.Undefined? ==> t == current
    ensures sent.Null? ==> t == Null
    ensures sent.Str? ==> t == Str(Trim(sent.s))
  {
    match sent
    case Undefined => current
    case Null => Null
    case Str(s) => Str(Trim(s))
  }

  /** The content after an update: stored as sent unless left out. */
  function PatchedContent(current: Value, sent: Value): (c: Value)
    ensures sent.Undefined? ==> c == current
    ensures !sent.Undefined? ==> c == sent
  {
    if sent.Undefined? then current else sent
  }

  /** Whether `id` names a note of `owner`: the filter `{_id: id, user: owner}`. */
  predicate Owns(store: NoteStore, owner: ObjectId, id: ObjectId) {
    id in store && store[id].owner == owner
  }

  /** `update_note`: update validators do not run, so null and empty values are stored as sent. */
  function UpdateNote(store: NoteStore, owner: ObjectId, id: ObjectId, title: Value, content: Value): (r: NoteExchange)
    ensures !Owns(store, owner, id) ==> r == NoteExchange(Reply(404, Message(MsgNoteMissing), []), store)
    ensures Owns(store, owner, id) ==>
      && r.reply == Reply(200, Message("Note updated successfully!"), [])
      && r.notes.Keys == store.Keys
      && r.notes[id] == store[id].(title := PatchedTitle(store[id].title, title),
                                   content := PatchedContent(store[id].content, content))
      && (forall k :: k in store && k != id ==> r.notes[k] == store[k])
  {
    if !Owns(store, owner, id) then NoteExchange(Reply(404, Message(MsgNoteMissing), []), store)
    else
      var n := store[id];
      NoteExchange(Reply(200, Message("Note updated successfully!"), []),
                   store[id := n.(title := PatchedTitle(n.title, title), content := PatchedContent(n.content, content))])
  }

  /** `delete_note`. */
  function DeleteNote(store: NoteStore, owner: ObjectId, id: ObjectId): (r: NoteExchange)
    ensures !Owns(store, owner, id) ==> r == NoteExchange(Reply(404, Message(MsgNoteMissing), []), store)
    ensures Owns(store, owner, id) ==>
      && r.reply == Reply(200, Message("Note deleted successfully!"), [])
      && r.notes.Keys == store.Keys - {id}
      && (forall k :: k in r.notes ==> r.notes[k] == store[k])
  {
    if !Owns(store, owner, id) then NoteExchange(Reply(404, Message(MsgNoteMissing), []), store)
    else NoteExchange(Reply(200, Message("Note deleted successfully!"), []), store - {id})
  }

  // Properties

  /** A created note is listed for its owner, with its stored title, and for nobody else. */
  lemma CreatedNoteListedForOwnerOnly(store: NoteStore, u: User, title: Value, content: Value, freshId: ObjectId, other: User)
    requires Answered(CreateNote(store, Some(u), title, content, freshId).reply, 200)
    requires other.id != u.id
    ensures (var s := CreateNote(store, Some(u), title, content, freshId).notes;
             && freshId in GetNotes(s, Some(u)).body.notes
             && GetNotes(s, Some(u)).body.notes[freshId].title == Str(NewTitle(title))
             && GetNotes(s, Some(other)).body.notes == GetNotes(store, Some(other)).body.notes)
  {
    var s := CreateNote(store, Some(u), title, content, freshId).notes;
    assert OwnedBy(s, other.id) == OwnedBy(store, other.id);
  }

  /** A created note's title carries no surrounding white space: trimming it again changes nothing. */
  lemma CreatedTitleIsTrimmed(store: NoteStore, u: User, title: Value, content: Value, freshId: ObjectId)
    requires Answered(CreateNote(store, Some(u), title, content, freshId).reply, 200)
    ensures (var s := CreateNote(store, Some(u), title, content, freshId).notes;
             Trim(s[freshId].title.s) == s[freshId].title.s)
  {
    var t := NewTitle(title);
    assert CreateNote(store, Some(u), title, content, freshId).notes[freshId].title == Str(t);
    if title.Truthy() {
      TrimIdempotent(title.s);
    } else {
      DefaultTitleIsTrimmed();
    }
  }

  lemma DefaultTitleIsTrimmed()
    ensures Trim(DefaultTitle) == DefaultTitle
  {
    var s := DefaultTitle;
    assert s[0] == 'B' && s[|s| - 1] == 'e';
    TrimKeepsUnpadded(s);
  }

  /** A title set by an update carries no surrounding white space either. */
  lemma UpdatedTitleIsTrimmed(store: NoteStore, owner: ObjectId, id: ObjectId, title: Value, content: Value)
    requires Owns(store, owner, id) && title.Str?
    ensures (var s := UpdateNote(store, owner, id, title, content).notes;
             Trim(s[id].title.s) == s[id].title.s)
  {
    assert UpdateNote(store, owner, id, title, content).notes[id].title == Str(Trim(title.s));
    TrimIdempotent(title.s);
  }

  /** Repeating an update changes nothing more. */
  lemma UpdateIdempotent(store: NoteStore, owner: ObjectId, id: ObjectId, title: Value, content: Value)
    ensures (var once := UpdateNote(store, owner, id, title, content).notes;
             UpdateNote(once, owner, id, title, content).notes == once)
  {
    if title.Str? {
      TrimIdempotent(title.s);
    }
  }

  /** Nobody can touch another user's note: both writes answer 404 and change nothing. */
  lemma ForeignNotesUntouchable(store: NoteStore, owner: ObjectId, id: ObjectId, title: Value, content: Value)
    requires id in store && store[id].owner != owner
    ensures UpdateNote(store, owner, id, title, content).notes == store
    ensures UpdateNote(store, owner, id, title, content).reply.status == 404
    ensures DeleteNote(store, owner, id).notes == store
    ensures DeleteNote(store, owner, id).reply.status == 404
  {
  }

  /** Writes by one user leave every other user's list exactly as it was. */
  lemma WritesKeepOtherListsIntact(store: NoteStore, owner: ObjectId, other: ObjectId, id: ObjectId, title: Value, content: Value)
    requires other != owner
    ensures OwnedBy(UpdateNote(store, owner, id, title, content).notes, other) == OwnedBy(store, other)
    ensures OwnedBy(DeleteNote(store, owner, id).notes, other) == OwnedBy(store, other)
  {
  }

  /** Once deleted, a note is gone: updating or deleting it again answers 404. */
  lemma DeletedNoteIsGone(store: NoteStore, owner: ObjectId, id: ObjectId, title: Value, content: Value)
    requires Owns(store, owner, id)
    ensures (var s := DeleteNote(store, owner, id).notes;
             && UpdateNote(s, owner, id, title, content).reply.status == 404
             && DeleteNote(s, owner, id).reply.status == 404)
  {
  }
}
