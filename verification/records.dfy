/**
 The persisted records: the User schema (`auth.model.js`, plus the
 `profile_pic` field the v2 controllers read) and the Note schema
 (`notes.model.js`), with the directory and the note store as maps keyed by
 ObjectId. The unique index on `email` is the directory's type invariant:
 a write that would break it fails, as the database rejects it.
 */
module Records {
  import opened Base
  import opened Jwt
  import opened Oracles

  datatype User = User(
    id: ObjectId,
    firstName: string,
    lastName: string,
    email: string,
    password: Digest,
    isVerified: bool,
    verificationToken: Option<Token>,
    profilePic: Value
  )

  predicate DirectoryInvariant(d: map<ObjectId, User>) {
    && (forall k :: k in d ==> d[k].id == k)
    && (forall a, b :: a in d && b in d && d[a].email == d[b].email ==> a == b)
  }

  /** The users collection: every record under its own id, and no e-mail held twice. */
  type Directory = d: map<ObjectId, User> | DirectoryInvariant(d) witness map[]

  /** A fresh document: `is_verified` defaults to false, `verification_token` to null. */
  function NewUser(id: ObjectId, firstName: string, lastName: string, email: string, password: Digest): (u: User)
    ensures !u.isVerified && u.verificationToken == None
    ensures u.profilePic == Undefined
  {
    User(id, firstName, lastName, email, password, false, None, Undefined)
  }

  /** Mongoose's `required` validator on the four required string paths (it rejects ""). */
  predicate RequiredPresent(u: User) {
    u.firstName != "" && u.lastName != "" && u.email != "" && u.password.value != ""
  }

  predicate EmailTaken(d: Directory, email: string) {
    exists k :: k in d && d[k].email == email
  }

  /** `User.findOne({email})`: the unique holder of the address, if any. */
  function FindByEmail(d: Directory, email: string): (r: Option<User>)
    ensures r.Some? <==> EmailTaken(d, email)
    ensures r.Some? ==> r.value.id in d && d[r.value.id] == r.value && r.value.email == email
  {
    if EmailTaken(d, email) then
      var k :| k in d && d[k].email == email;
      Some(d[k])
    else
      None
  }

  /** `User.findOne({_id: id})`. */
  function FindById(d: Directory, id: ObjectId): (r: Option<User>)
    ensures r.Some? <==> id in d
    ensures r.Some? ==> r.value == d[id] && r.value.id == id
  {
    if id in d then Some(d[id]) else None
  }

  /** `user.save()` of a new document: fails on a taken id, a taken e-mail or an empty required path. */
  function Create(d: Directory, u: User): (r: Option<Directory>)
    ensures r.Some? <==> u.id !in d && !EmailTaken(d, u.email) && RequiredPresent(u)
    ensures r.Some? ==> r.value.Keys == d.Keys + {u.id} && r.value[u.id] == u
    ensures r.Some? ==> forall k :: k in d ==> r.value[k] == d[k]
  {
    if u.id in d || EmailTaken(d, u.email) || !RequiredPresent(u) then None
    else
      var d' := d[u.id := u];
      assert DirectoryInvariant(d');
      Some(d')
  }

  /** Saving (or `$set`-updating) an existing document: fails when it is gone or its new e-mail belongs to another user. */
  function Update(d: Directory, u: User): (r: Option<Directory>)
    ensures r.Some? <==> u.id in d && forall k :: k in d && k != u.id ==> d[k].email != u.email
    ensures r.Some? ==> r.value.Keys == d.Keys && r.value[u.id] == u
    ensures r.Some? ==> forall k :: k in d && k != u.id ==> r.value[k] == d[k]
  {
    if u.id !in d || exists k :: k in d && k != u.id && d[k].email == u.email then None
    else
      var d' := d[u.id := u];
      assert DirectoryInvariant(d');
      Some(d')
  }

  /** The record a verified user should be saved as: verified, with the token spent. */
  function Verified(u: User): (v: User)
    ensures v.isVerified && v.verificationToken == None
    ensures v.(isVerified := u.isVerified, verificationToken := u.verificationToken) == u
  {
    u.(isVerified := true, verificationToken := None)
  }

  /** Saving a record whose e-mail is unchanged never hits the unique index. */
  lemma UpdateSameEmailSucceeds(d: Directory, u: User)
    requires u.id in d && d[u.id].email == u.email
    ensures Update(d, u) == Some(d[u.id := u])
  {
  }

  /** The user summary the v2 login and `/user` responses carry: no password. */
  datatype Summary = Summary(
    id: ObjectId,
    firstName: string,
    lastName: string,
    email: string,
    isVerified: bool,
    profilePic: Value
  )

  function SummaryOf(u: User): (s: Summary)
    ensures s.id == u.id && s.email == u.email && s.isVerified == u.isVerified
  {
    Summary(u.id, u.firstName, u.lastName, u.email, u.isVerified, u.profilePic)
  }

  /** The summary does not depend on the stored password digest. */
  lemma SummaryIgnoresPassword(u: User, p: Digest)
    ensures SummaryOf(u.(password := p)) == SummaryOf(u)
  {
  }

  /** A user document after `.select("-password")`, as the profile update returns it. */
  datatype PublicUser = PublicUser(
    id: ObjectId,
    firstName: string,
    lastName: string,
    email: string,
    isVerified: bool,
    verificationToken: Option<Token>,
    profilePic: Value
  )

  function PublicOf(u: User): (p: PublicUser)
    ensures p.id == u.id && p.verificationToken == u.verificationToken
  {
    PublicUser(u.id, u.firstName, u.lastName, u.email, u.isVerified, u.verificationToken, u.profilePic)
  }

  /** Two users that differ only in their password project to the same public document. */
  lemma PublicIgnoresPassword(u: User, p: Digest)
    ensures PublicOf(u.(password := p)) == PublicOf(u)
  {
  }

  /** A note document; `title` and `content` may be set to null by an update. */
  datatype Note = Note(id: ObjectId, title: Value, content: Value, owner: ObjectId)

  const DefaultTitle := "Blank Note"

  /** The notes collection: every note under its own id. */
  type NoteStore = s: map<ObjectId, Note> | forall k :: k in s ==> s[k].id == k witness map[]
}
