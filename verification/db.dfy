/**
 * The MongoDB database the handlers read and write: four collections, each
 * a sequence of documents in natural (insertion) order, and the model
 * operations the handlers call on them (`findById`, `findOne`, `create`,
 * `save`/`findByIdAndUpdate`, `findByIdAndDelete`, `deleteMany`).
 */
module Db {
  import opened Wrappers
  import opened Seqs
  import opened Text
  import opened Schema

  // ----------------------------------------------------------- lookups

  /** `User.findById(id)` */
  function FindUser(users: seq<User>, id: Id): (r: Option<nat>)
    ensures r.Some? ==> r.value < |users| && users[r.value].id == id
    ensures r.None? <==> forall i :: 0 <= i < |users| ==> users[i].id != id
  {
    Find(users, (u: User) => u.id == id)
  }

  /** `User.findOne({email})`; the schema's setters normalise the queried address too. */
  function FindUserByEmail(users: seq<User>, email: string): (r: Option<nat>)
    ensures r.Some? ==> r.value < |users| && users[r.value].email == NormalizeEmail(email)
    ensures r.None? <==> forall i :: 0 <= i < |users| ==> users[i].email != NormalizeEmail(email)
  {
    Find(users, (u: User) => u.email == NormalizeEmail(email))
  }

  /** `Note.findById(id)` */
  function FindNote(notes: seq<Note>, id: Id): (r: Option<nat>)
    ensures r.Some? ==> r.value < |notes| && notes[r.value].id == id
    ensures r.None? <==> forall i :: 0 <= i < |notes| ==> notes[i].id != id
  {
    Find(notes, (n: Note) => n.id == id)
  }

  /** `Note.findOne({_id: id, user: owner})` */
  function FindOwnedNote(notes: seq<Note>, id: Id, owner: Id): (r: Option<nat>)
    ensures r.Some? ==> r.value < |notes| && notes[r.value].id == id && notes[r.value].owner == owner
    ensures r.None? <==> forall i :: 0 <= i < |notes| ==> !(notes[i].id == id && notes[i].owner == owner)
  {
    Find(notes, (n: Note) => n.id == id && n.owner == owner)
  }

  /** `Label.findById(id)` */
  function FindLabel(labels: seq<Label>, id: Id): (r: Option<nat>)
    ensures r.Some? ==> r.value < |labels| && labels[r.value].id == id
    ensures r.None? <==> forall i :: 0 <= i < |labels| ==> labels[i].id != id
  {
    Find(labels, (l: Label) => l.id == id)
  }

  /** `Collaborator.findById(id)` */
  function FindGrant(grants: seq<Grant>, id: Id): (r: Option<nat>)
    ensures r.Some? ==> r.value < |grants| && grants[r.value].id == id
    ensures r.None? <==> forall i :: 0 <= i < |grants| ==> grants[i].id != id
  {
    Find(grants, (g: Grant) => g.id == id)
  }

  /** `Collaborator.findOne({user, note})` */
  function FindGrantFor(grants: seq<Grant>, user: Id, note: Id): (r: Option<nat>)
    ensures r.Some? ==> r.value < |grants| && grants[r.value].user == user && grants[r.value].note == note
    ensures r.None? <==> forall i :: 0 <= i < |grants| ==> !(grants[i].user == user && grants[i].note == note)
  {
    Find(grants, (g: Grant) => g.user == user && g.note == note)
  }

  /** The grants `Collaborator.deleteMany({note})` keeps. */
  function NotOn(note: Id): Grant -> bool {
    (g: Grant) => g.note != note
  }

  /** `Collaborator.deleteMany({note})`: what remains. */
  function GrantsNotOn(grants: seq<Grant>, note: Id): (r: seq<Grant>)
    ensures forall g :: g in r <==> g in grants && g.note != note
  {
    FilterMembers(grants, NotOn(note));
    Filter(grants, NotOn(note))
  }

  /** At most one grant per (user, note) pair. */
  ghost predicate OneGrantPerPair(grants: seq<Grant>) {
    forall i, j :: 0 <= i < j < |grants| ==>
      !(grants[i].user == grants[j].user && grants[i].note == grants[j].note)
  }

  // ----------------------------------------------------------- the store

  class Store {
    var users: seq<User>
    var notes: seq<Note>
    var labels: seq<Label>
    var grants: seq<Grant>
    /** Every `_id` handed out so far is below this one. */
    var nextId: Id

    /** Ids are unique in each collection and below `nextId`; emails are unique among users. */
    ghost predicate Valid()
      reads this
    {
      && UniqueBy(users, UserKey) && UniqueBy(users, UserEmail)
      && UniqueBy(notes, NoteKey) && UniqueBy(labels, LabelKey) && UniqueBy(grants, GrantKey)
      && (forall i :: 0 <= i < |users| ==> users[i].id < nextId)
      && (forall i :: 0 <= i < |notes| ==> notes[i].id < nextId)
      && (forall i :: 0 <= i < |labels| ==> labels[i].id < nextId)
      && (forall i :: 0 <= i < |grants| ==> grants[i].id < nextId)
    }

    constructor ()
      ensures Valid()
      ensures users == [] && notes == [] && labels == [] && grants == []
    {
      users, notes, labels, grants, nextId := [], [], [], [], 0;
    }

    /** `Note.create(fields)`: validates, then appends the new document under a fresh id. */
    method InsertNote(f: NoteFields) returns (r: Result<Note, string>)
      requires Valid()
      modifies this
      ensures Valid()
      ensures r == CreateNote(old(nextId), f)
      ensures r.Success? ==> notes == old(notes) + [r.value] && nextId == old(nextId) + 1
      ensures r.Failure? ==> unchanged(this)
      ensures users == old(users) && labels == old(labels) && grants == old(grants)
    {
      r := CreateNote(nextId, f);
      if r.Success? {
        AppendUnique(notes, r.value, NoteKey);
        notes := notes + [r.value];
        nextId := nextId + 1;
      }
    }

    /** Writes back the note at position `i` (`note.save()`, `findByIdAndUpdate`). */
    method ReplaceNote(i: nat, n: Note)
      requires Valid() && i < |notes| && n.id == notes[i].id
      modifies this
      ensures Valid()
      ensures notes == old(notes)[i := n]
      ensures users == old(users) && labels == old(labels) && grants == old(grants) && nextId == old(nextId)
    {
      UpdateUnique(notes, i, n, NoteKey);
      notes := notes[i := n];
    }

    /** `Note.findByIdAndDelete(id)` once the note is found at position `i`. */
    method DeleteNoteAt(i: nat)
      requires Valid() && i < |notes|
      modifies this
      ensures Valid()
      ensures notes == RemoveAt(old(notes), i)
      ensures forall j :: 0 <= j < |notes| ==> notes[j].id != old(notes)[i].id
      ensures users == old(users) && labels == old(labels) && grants == old(grants) && nextId == old(nextId)
    {
      RemoveAtUnique(notes, i, NoteKey);
      notes := RemoveAt(notes, i);
    }

    /** `User.create(fields)`: validates, then appends under a fresh id. */
    method InsertUser(f: UserFields) returns (r: Result<User, string>)
      requires Valid()
      requires forall i :: 0 <= i < |users| ==> users[i].email != NormalizeEmail(f.email)
      modifies this
      ensures Valid()
      ensures r == CreateUser(old(nextId), f)
      ensures r.Success? ==> users == old(users) + [r.value] && nextId == old(nextId) + 1
      ensures r.Failure? ==> unchanged(this)
      ensures notes == old(notes) && labels == old(labels) && grants == old(grants)
    {
      r := CreateUser(nextId, f);
      if r.Success? {
        AppendUnique(users, r.value, UserKey);
        AppendUnique(users, r.value, UserEmail);
        users := users + [r.value];
        nextId := nextId + 1;
      }
    }

    /** Writes back the user at position `i` with a new refresh token; nothing else of the user changes. */
    method SetRefreshToken(i: nat, token: Option<string>)
      requires Valid() && i < |users|
      modifies this
      ensures Valid()
      ensures users == old(users)[i := old(users)[i].(refreshToken := token)]
      ensures notes == old(notes) && labels == old(labels) && grants == old(grants) && nextId == old(nextId)
    {
      var u := users[i].(refreshToken := token);
      UpdateUnique(users, i, u, UserKey);
      UpdateUnique(users, i, u, UserEmail);
      users := users[i := u];
    }

    /** `Label.create({user, name})` */
    method InsertLabel(owner: Id, name: string) returns (r: Result<Label, string>)
      requires Valid()
      modifies this
      ensures Valid()
      ensures r == CreateLabel(old(nextId), owner, name)
      ensures r.Success? ==> labels == old(labels) + [r.value] && nextId == old(nextId) + 1
      ensures r.Failure? ==> unchanged(this)
      ensures users == old(users) && notes == old(notes) && grants == old(grants)
    {
      r := CreateLabel(nextId, owner, name);
      if r.Success? {
        AppendUnique(labels, r.value, LabelKey);
        labels := labels + [r.value];
        nextId := nextId + 1;
      }
    }

    /** `Label.findByIdAndDelete(id)` once the label is found at position `i`. */
    method DeleteLabelAt(i: nat)
      requires Valid() && i < |labels|
      modifies this
      ensures Valid()
      ensures labels == RemoveAt(old(labels), i)
      ensures forall j :: 0 <= j < |labels| ==> labels[j].id != old(labels)[i].id
      ensures users == old(users) && notes == old(notes) && grants == old(grants) && nextId == old(nextId)
    {
      RemoveAtUnique(labels, i, LabelKey);
      labels := RemoveAt(labels, i);
    }

    /** `Collaborator.create({user, note, permission})` */
    method InsertGrant(user: Id, note: Id, permission: Option<string>) returns (r: Result<Grant, string>)
      requires Valid()
      modifies this
      ensures Valid()
      ensures r == CreateGrant(old(nextId), user, note, permission)
      ensures r.Success? ==> grants == old(grants) + [r.value] && nextId == old(nextId) + 1
      ensures r.Failure? ==> unchanged(this)
      ensures users == old(users) && notes == old(notes) && labels == old(labels)
    {
      r := CreateGrant(nextId, user, note, permission);
      if r.Success? {
        AppendUnique(grants, r.value, GrantKey);
        grants := grants + [r.value];
        nextId := nextId + 1;
      }
    }

    /** `Collaborator.findByIdAndDelete(id)` once the grant is found at position `i`. */
    method DeleteGrantAt(i: nat)
      requires Valid() && i < |grants|
      modifies this
      ensures Valid()
      ensures grants == RemoveAt(old(grants), i)
      ensures forall j :: 0 <= j < |grants| ==> grants[j].id != old(grants)[i].id
      ensures users == old(users) && notes == old(notes) && labels == old(labels) && nextId == old(nextId)
    {
      RemoveAtUnique(grants, i, GrantKey);
      grants := RemoveAt(grants, i);
    }

    /** `Collaborator.deleteMany({note})` */
    method DeleteGrantsOn(note: Id)
      requires Valid()
      modifies this
      ensures Valid()
      ensures grants == GrantsNotOn(old(grants), note)
      ensures users == old(users) && notes == old(notes) && labels == old(labels) && nextId == old(nextId)
    {
      FilterUnique(grants, NotOn(note), GrantKey);
      grants := GrantsNotOn(grants, note);
    }
  }
}
