/**
 * Sharing a note with another user. Only the note's owner may add or
 * remove a collaborator; a (user, note) pair is granted at most once. These
 * handlers answer an unauthenticated request with 403, not 401.
 */
module CollaboratorController {
  import opened Wrappers
  import opened Seqs
  import opened Text
  import opened Envelope
  import opened Schema
  import opened Db

  /** The checks addCollborator makes before it creates the grant, in order; None when all pass. */
  function AddGuard(users: seq<User>, notes: seq<Note>, grants: seq<Grant>, caller: Option<Id>,
                    email: Option<string>, noteId: Option<Id>, permission: Option<string>): (t: Option<Thrown>)
    ensures caller.None? ==> t == Some(Raise(403, "User not authenticated"))
    ensures caller.Some? && !(Truthy(email) && noteId.Some? && Truthy(permission))
            ==> t == Some(Raise(404, "Email noteid and permission all are required"))
    ensures caller.Some? && Truthy(email) && noteId.Some? && Truthy(permission)
            && FindUserByEmail(users, email.value).None?
            ==> t == Some(Raise(404, "User not found"))
    ensures caller.Some? && Truthy(email) && noteId.Some? && Truthy(permission)
            && FindUserByEmail(users, email.value).Some? && FindNote(notes, noteId.value).None?
            ==> t == Some(Raise(404, "Note not found"))
    ensures caller.Some? && Truthy(email) && noteId.Some? && Truthy(permission)
            && FindUserByEmail(users, email.value).Some? && FindNote(notes, noteId.value).Some?
            && notes[FindNote(notes, noteId.value).value].owner != caller.value
            ==> t == Some(Raise(403, "You do not have permission to add collaborator"))
    ensures caller.Some? && Truthy(email) && noteId.Some? && Truthy(permission)
            && FindUserByEmail(users, email.value).Some? && FindNote(notes, noteId.value).Some?
            && notes[FindNote(notes, noteId.value).value].owner == caller.value
            && FindGrantFor(grants, users[FindUserByEmail(users, email.value).value].id, noteId.value).Some?
            ==> t == Some(Raise(400, "User is already a collaborator on this note"))
    ensures t.None? <==>
              && caller.Some? && Truthy(email) && noteId.Some? && Truthy(permission)
              && FindUserByEmail(users, email.value).Some?
              && FindNote(notes, noteId.value).Some?
              && notes[FindNote(notes, noteId.value).value].owner == caller.value
              && FindGrantFor(grants, users[FindUserByEmail(users, email.value).value].id, noteId.value).None?
    ensures t.Some? ==> t.value.Raised?
  {
    if caller.None? then Some(Raise(403, "User not authenticated"))
    else if !(Truthy(email) && noteId.Some? && Truthy(permission)) then
      Some(Raise(404, "Email noteid and permission all are required"))
    else match FindUserByEmail(users, email.value)
      case None => Some(Raise(404, "User not found"))
      case Some(u) =>
        match FindNote(notes, noteId.value)
        case None => Some(Raise(404, "Note not found"))
        case Some(n) =>
          if notes[n].owner != caller.value then Some(Raise(403, "You do not have permission to add collaborator"))
          else if FindGrantFor(grants, users[u].id, noteId.value).Some? then
            Some(Raise(400, "User is already a collaborator on this note"))
          else None
  }

  /** Appending a grant for a pair that has none keeps every pair granted at most once. */
  lemma AppendNewPair(grants: seq<Grant>, g: Grant)
    requires OneGrantPerPair(grants)
    requires FindGrantFor(grants, g.user, g.note).None?
    ensures OneGrantPerPair(grants + [g])
  {
  }

  /**
   * addCollborator. The permission is stored as given; a value other than
   * "read" or "write" fails Mongoose's enum validation, which the handler
   * does not catch.
   */
  method AddCollaborator(db: Store, caller: Option<Id>, email: Option<string>, noteId: Option<Id>,
                         permission: Option<string>) returns (r: Reply<Grant>)
    requires db.Valid()
    modifies db
    ensures db.Valid()
    ensures var guard := AddGuard(old(db.users), old(db.notes), old(db.grants), caller, email, noteId, permission);
      && (guard.Some? ==> r == Failure(guard.value))
      && (r.Success? <==> guard.None? && ParsePermission(permission.value).Some?)
    ensures r.Failure? ==> unchanged(db)
    ensures r.Success? ==>
              var grantee := old(db.users)[FindUserByEmail(old(db.users), email.value).value];
              && db.grants == old(db.grants) + [r.value.data]
              && r.value.data.user == grantee.id && r.value.data.note == noteId.value
              && Some(r.value.data.permission) == ParsePermission(permission.value)
              && r.value.statusCode == 201
    ensures OneGrantPerPair(old(db.grants)) ==> OneGrantPerPair(db.grants)
    ensures db.users == old(db.users) && db.notes == old(db.notes) && db.labels == old(db.labels)
  {
    var guard := AddGuard(db.users, db.notes, db.grants, caller, email, noteId, permission);
    if guard.Some? {
      return Failure(guard.value);
    }
    var grantee := db.users[FindUserByEmail(db.users, email.value).value];
    ghost var before := db.grants;
    var created := db.InsertGrant(grantee.id, noteId.value, permission);
    if created.Failure? {
      return Failure(Unexpected("ValidationError"));
    }
    if OneGrantPerPair(before) {
      AppendNewPair(before, created.value);
    }
    r := Respond(201, created.value, "Collaborator added successfully");
  }

  /** The owner of a note may name themselves as a collaborator on it: only a repeated pair is refused. */
  lemma OwnerMayGrantSelf(users: seq<User>, notes: seq<Note>, grants: seq<Grant>, caller: Id,
                          email: string, noteId: Id, permission: string)
    requires email != "" && permission != ""
    requires FindUserByEmail(users, email).Some? && users[FindUserByEmail(users, email).value].id == caller
    requires FindNote(notes, noteId).Some? && notes[FindNote(notes, noteId).value].owner == caller
    requires FindGrantFor(grants, caller, noteId).None?
    ensures AddGuard(users, notes, grants, Some(caller), Some(email), Some(noteId), Some(permission)).None?
  {
  }

  /** The checks removeCollborator makes before it deletes the grant, in order; None when all pass. */
  function RemoveGuard(notes: seq<Note>, grants: seq<Grant>, caller: Option<Id>, id: Option<Id>): (t: Option<Thrown>)
    ensures caller.None? ==> t == Some(Raise(403, "User not authenticated"))
    ensures caller.Some? && id.None? ==> t == Some(Raise(400, "Collaborator Id is required"))
    ensures caller.Some? && id.Some? && FindGrant(grants, id.value).None? ==> t == Some(Raise(404, "Collaborator not found"))
    ensures caller.Some? && id.Some? && FindGrant(grants, id.value).Some?
            && FindNote(notes, grants[FindGrant(grants, id.value).value].note).None?
            ==> t == Some(Raise(404, "note not found"))
    ensures caller.Some? && id.Some? && FindGrant(grants, id.value).Some?
            && FindNote(notes, grants[FindGrant(grants, id.value).value].note).Some?
            && notes[FindNote(notes, grants[FindGrant(grants, id.value).value].note).value].owner != caller.value
            ==> t == Some(Raise(403, "You Don't have permission to remove collaborator"))
    ensures t.None? <==>
              && caller.Some? && id.Some? && FindGrant(grants, id.value).Some?
              && var g := grants[FindGrant(grants, id.value).value];
                 FindNote(notes, g.note).Some? && notes[FindNote(notes, g.note).value].owner == caller.value
  {
    if caller.None? then Some(Raise(403, "User not authenticated"))
    else if id.None? then Some(Raise(400, "Collaborator Id is required"))
    else match FindGrant(grants, id.value)
      case None => Some(Raise(404, "Collaborator not found"))
      case Some(gi) =>
        match FindNote(notes, grants[gi].note)
        case None => Some(Raise(404, "note not found"))
        case Some(ni) =>
          if notes[ni].owner != caller.value then Some(Raise(403, "You Don't have permission to remove collaborator"))
          else None
  }

  /** A collaborator who does not own the note cannot withdraw their own grant. */
  lemma GranteeCannotRevoke(notes: seq<Note>, grants: seq<Grant>, caller: Id, id: Id)
    requires FindGrant(grants, id).Some? && grants[FindGrant(grants, id).value].user == caller
    requires forall k :: 0 <= k < |notes| && notes[k].id == grants[FindGrant(grants, id).value].note
               ==> notes[k].owner != caller
    ensures RemoveGuard(notes, grants, Some(caller), Some(id)).Some?
  {
  }

  /**
   * removeCollborator: the grant, then its note, must exist, and the caller
   * must own the note. The success message says "added".
   */
  method RemoveCollaborator(db: Store, caller: Option<Id>, id: Option<Id>) returns (r: Reply<NoData>)
    requires db.Valid()
    modifies db
    ensures db.Valid()
    ensures var guard := RemoveGuard(old(db.notes), old(db.grants), caller, id);
      && (guard.Some? <==> r.Failure?)
      && (guard.Some? ==> r.error == guard.value && unchanged(db))
    ensures r.Success? ==>
              && db.grants == RemoveAt(old(db.grants), FindGrant(old(db.grants), id.value).value)
              && (forall j :: 0 <= j < |db.grants| ==> db.grants[j].id != id.value)
              && r.value == ApiResponse(200, NullData, "Collaborator added Successfully")
    ensures OneGrantPerPair(old(db.grants)) ==> OneGrantPerPair(db.grants)
    ensures db.users == old(db.users) && db.notes == old(db.notes) && db.labels == old(db.labels)
  {
    var guard := RemoveGuard(db.notes, db.grants, caller, id);
    if guard.Some? {
      return Failure(guard.value);
    }
    var gi := FindGrant(db.grants, id.value).value;
    ghost var before := db.grants;
    db.DeleteGrantAt(gi);
    assert forall j :: 0 <= j < |db.grants| ==> db.grants[j] == before[if j < gi then j else j + 1];
    r := Respond(200, NullData, "Collaborator added Successfully");
  }
}
