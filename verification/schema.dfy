/**
 * The four Mongoose models (User, Note, Label, Collaborator) as records,
 * with what the schemas add when a document is created: setters (trim,
 * lowercase), defaults, the `required` and `enum` validators, the
 * password pre-save hook and the claims of the two JWTs a user signs.
 */
module Schema {
  import opened Wrappers
  import opened Text

  /** A document `_id`. */
  type Id = nat

  /** The note `type` enum. */
  datatype NoteType = TextNote | ImageNote | ListNote

  function ParseNoteType(s: string): (r: Option<NoteType>)
    ensures r == Some(TextNote) <==> s == "text"
    ensures r == Some(ImageNote) <==> s == "image"
    ensures r == Some(ListNote) <==> s == "list"
  {
    if s == "text" then Some(TextNote)
    else if s == "image" then Some(ImageNote)
    else if s == "list" then Some(ListNote)
    else None
  }

  /** The collaborator `permission` enum. */
  datatype Permission = Read | Write

  function ParsePermission(s: string): (r: Option<Permission>)
    ensures r == Some(Read) <==> s == "read"
    ensures r == Some(Write) <==> s == "write"
  {
    if s == "read" then Some(Read) else if s == "write" then Some(Write) else None
  }

  /**
   * A bcrypt digest, kept symbolic: hashing `p` yields `Bcrypt(p)`, and
   * comparing a candidate against a digest succeeds exactly for the hashed
   * plaintext. Salting is not modelled.
   */
  datatype Digest = Bcrypt(plain: string)

  predicate PasswordMatches(candidate: string, d: Digest) {
    d.plain == candidate
  }

  datatype User = User(
    id: Id,
    displayName: string,
    email: string,
    password: Option<Digest>,
    avatar: Option<string>,
    googleId: Option<string>,
    refreshToken: Option<string>)

  datatype Note = Note(
    id: Id,
    title: string,
    content: Option<string>,
    kind: NoteType,
    owner: Id,
    labels: seq<Id>,
    isPinned: bool,
    isArchived: bool,
    isTrashed: bool,
    trashedAt: Option<int>,
    listItems: seq<string>,
    imageUrl: Option<string>,
    reminder: Option<int>,
    notification: Option<bool>)

  datatype Label = Label(id: Id, owner: Id, name: string)

  datatype Grant = Grant(id: Id, user: Id, note: Id, permission: Permission)

  function UserKey(u: User): Id { u.id }
  function UserEmail(u: User): string { u.email }
  function NoteKey(n: Note): Id { n.id }
  function LabelKey(l: Label): Id { l.id }
  function GrantKey(g: Grant): Id { g.id }

  /** A field of a create call: not passed, passed as null, or passed a value. */
  datatype Given<T> = Absent | Null | Present(value: T)

  /** The fields a handler passes to `Note.create`. */
  datatype NoteFields = NoteFields(
    title: string,
    content: Given<string>,
    kind: Option<string>,
    owner: Id,
    listItems: seq<string>,
    imageUrl: Option<string>)

  /**
   * `Note.create(fields)`: title and content are trimmed, content defaults
   * to "" only when absent, type defaults to "text" and must be one of the
   * enum, title is required (non-empty once trimmed), the three flags start
   * false and the label list empty. A failed validator is a
   * Mongoose ValidationError, reported here as `Failure`.
   */
  function CreateNote(id: Id, f: NoteFields): (r: Result<Note, string>)
    ensures r.Success? <==> Trim(f.title) != [] && (f.kind.None? || ParseNoteType(f.kind.value).Some?)
    ensures r.Success? ==> r.value.id == id && r.value.owner == f.owner && r.value.title == Trim(f.title)
    ensures r.Success? ==> f.kind.None? ==> r.value.kind == TextNote
    ensures r.Success? ==> f.kind.Some? ==> Some(r.value.kind) == ParseNoteType(f.kind.value)
    ensures r.Success? ==> f.content.Absent? ==> r.value.content == Some("")
    ensures r.Success? ==> f.content.Null? ==> r.value.content.None?
    ensures r.Success? ==> f.content.Present? ==> r.value.content == Some(Trim(f.content.value))
    ensures r.Success? ==> !r.value.isPinned && !r.value.isArchived && !r.value.isTrashed
    ensures r.Success? ==> r.value.labels == [] && r.value.trashedAt.None?
    ensures r.Success? ==> r.value.listItems == f.listItems && r.value.imageUrl == f.imageUrl
  {
    var kind := if f.kind.None? then Some(TextNote) else ParseNoteType(f.kind.value);
    if Trim(f.title) == [] then Failure("ValidationError: title is required")
    else if kind.None? then Failure("ValidationError: type is not a valid enum value")
    else
      var content := match f.content
        case Absent => Some("")
        case Null => None
        case Present(c) => Some(Trim(c));
      Success(Note(id, Trim(f.title), content, kind.value, f.owner, [], false, false, false, None,
                   f.listItems, f.imageUrl, None, None))
  }

  /** The fields a caller passes to `User.create`. */
  datatype UserFields = UserFields(
    displayName: string,
    email: string,
    password: Option<string>,
    avatar: Option<string>,
    googleId: Option<string>)

  /**
   * The pre-save hook: the stored password is rehashed only when the save
   * assigned a new one (`isModified('password')`).
   */
  function HashIfModified(stored: Option<Digest>, newPassword: Option<string>): (r: Option<Digest>)
    ensures newPassword.None? ==> r == stored
    ensures newPassword.Some? ==> r == Some(Bcrypt(newPassword.value))
  {
    match newPassword
    case None => stored
    case Some(p) => Some(Bcrypt(p))
  }

  /**
   * `User.create(fields)`: displayName and email are required, email is
   * lower-cased and trimmed, a given password is hashed by the pre-save
   * hook, and no refresh token is stored. Nothing requires a password or a
   * Google id.
   */
  function CreateUser(id: Id, f: UserFields): (r: Result<User, string>)
    ensures r.Success? <==> f.displayName != [] && NormalizeEmail(f.email) != []
    ensures r.Success? ==> r.value.id == id && r.value.displayName == f.displayName
    ensures r.Success? ==> r.value.email == NormalizeEmail(f.email)
    ensures r.Success? ==> (r.value.password.Some? <==> f.password.Some?)
    ensures r.Success? ==> f.password.Some? ==> PasswordMatches(f.password.value, r.value.password.value)
    ensures r.Success? ==> r.value.refreshToken.None?
    ensures r.Success? ==> r.value.avatar == f.avatar && r.value.googleId == f.googleId
  {
    if f.displayName == [] then Failure("ValidationError: displayName is required")
    else if NormalizeEmail(f.email) == [] then Failure("ValidationError: email is required")
    else Success(User(id, f.displayName, NormalizeEmail(f.email), HashIfModified(None, f.password),
                      f.avatar, f.googleId, None))
  }

  /** `Label.create({user, name})`: the name is trimmed and required. */
  function CreateLabel(id: Id, owner: Id, name: string): (r: Result<Label, string>)
    ensures r.Success? <==> Trim(name) != []
    ensures r.Success? ==> r.value == Label(id, owner, Trim(name))
  {
    if Trim(name) == [] then Failure("ValidationError: name is required")
    else Success(Label(id, owner, Trim(name)))
  }

  /** `Collaborator.create({user, note, permission})`: permission defaults to read and must be in the enum. */
  function CreateGrant(id: Id, user: Id, note: Id, permission: Option<string>): (r: Result<Grant, string>)
    ensures permission.None? ==> r == Success(Grant(id, user, note, Read))
    ensures permission.Some? ==> (r.Success? <==> ParsePermission(permission.value).Some?)
    ensures r.Success? ==> r.value.id == id && r.value.user == user && r.value.note == note
    ensures r.Success? && permission.Some? ==> Some(r.value.permission) == ParsePermission(permission.value)
  {
    match permission
    case None => Success(Grant(id, user, note, Read))
    case Some(p) =>
      match ParsePermission(p)
      case None => Failure("ValidationError: permission is not a valid enum value")
      case Some(q) => Success(Grant(id, user, note, q))
  }

  /** The user as the handlers send it: without password, refresh token or Google id. */
  datatype PublicUser = PublicUser(id: Id, displayName: string, email: string, avatar: Option<string>)

  function Publish(u: User): (p: PublicUser)
    ensures p.id == u.id && p.email == u.email && p.displayName == u.displayName && p.avatar == u.avatar
  {
    PublicUser(u.id, u.displayName, u.email, u.avatar)
  }

  /** The published user reveals nothing of the secrets: changing them leaves it the same. */
  lemma PublishHidesSecrets(u: User, password: Option<Digest>, token: Option<string>, googleId: Option<string>)
    ensures Publish(u.(password := password, refreshToken := token, googleId := googleId)) == Publish(u)
  {
  }

  /** Which secret and expiry a JWT is signed with. */
  datatype SigningKey = AccessKey | RefreshKey

  /** The payload of a JWT. */
  datatype Payload =
    | AccessPayload(sub: Id, email: string, displayName: string)
    | RefreshPayload(sub: Id)

  /** What `jwt.sign` receives: the payload, the key it is signed with and the issue time. */
  datatype Claims = Claims(payload: Payload, key: SigningKey, issuedAt: int)

  /** `user.generateAccessToken()`: id, email and display name, under the access secret and expiry. */
  function AccessClaims(u: User, now: int): (c: Claims)
    ensures c.key == AccessKey && c.issuedAt == now
    ensures c.payload == AccessPayload(u.id, u.email, u.displayName)
  {
    Claims(AccessPayload(u.id, u.email, u.displayName), AccessKey, now)
  }

  /** `user.generateRefreshToken()`: only the id, under the refresh secret and expiry. */
  function RefreshClaims(u: User, now: int): (c: Claims)
    ensures c.key == RefreshKey && c.issuedAt == now
    ensures c.payload == RefreshPayload(u.id)
  {
    Claims(RefreshPayload(u.id), RefreshKey, now)
  }

  /** A refresh token's claims depend on the user's id alone. */
  lemma RefreshClaimsOnlyId(u: User, v: User, now: int)
    ensures RefreshClaims(u, now) == RefreshClaims(v, now) <==> u.id == v.id
  {
  }
}
