/**
 * The note handlers. Each one first rejects a request without an
 * authenticated user (401), then checks its parameters, looks the note up
 * and changes a small, definite set of fields. As in the code, editNote,
 * getNote and the archive/unarchive/trash/restore/pin/unpin handlers look
 * the note up by id alone: they never check that the caller owns it.
 */
module NoteController {
  import opened Wrappers
  import opened Seqs
  import opened Text
  import opened Envelope
  import opened Schema
  import opened Db

  /** What happened to `req.file`: none was sent, it was uploaded to this URL, or the upload threw. */
  datatype Upload = NoFile | Uploaded(url: string) | UploadFailed

  const NotAuthenticated: string := "User not authenticated"

  /** The image URL a handler stores: the uploaded one for image notes, otherwise null. */
  function ImageUrlFor(kind: string, upload: Upload): (r: Option<string>)
    ensures r.Some? <==> kind == "image" && upload.Uploaded?
    ensures r.Some? ==> r.value == upload.url
  {
    if kind == "image" && upload.Uploaded? then Some(upload.url) else None
  }

  /** The list items a handler stores: the parsed JSON for list notes, otherwise []. */
  function ListItemsFor(kind: string, parsed: Option<seq<string>>): seq<string>
    requires kind == "list" ==> parsed.Some?
  {
    if kind == "list" then parsed.value else []
  }

  // ------------------------------------------------------------------ addNote

  /** Every check addNote makes passes, so the note is created. */
  predicate AddNoteAccepted(caller: Option<Id>, title: Option<string>, kind: Option<string>,
                            listJson: Option<seq<string>>, upload: Upload)
  {
    && caller.Some? && Truthy(title) && Truthy(kind) && !upload.UploadFailed?
    && (kind.value == "list" ==> listJson.Some?)
    && Trim(title.value) != "" && ParseNoteType(kind.value).Some?
  }

  /**
   * addNote. `listJson` is what `JSON.parse(listItems)` returns (None when it
   * throws); it is consulted only for list notes. The upload runs whenever a
   * file was sent, whatever the note type.
   */
  method AddNote(db: Store, caller: Option<Id>, title: Option<string>, content: Option<string>,
                 kind: Option<string>, listJson: Option<seq<string>>, upload: Upload)
    returns (r: Reply<Note>)
    requires db.Valid()
    modifies db
    ensures db.Valid()
    ensures caller.None? ==> r == Failure(Raise(401, NotAuthenticated))
    ensures caller.Some? && !(Truthy(title) && Truthy(kind)) ==> FailsWith(r, 400)
    ensures caller.Some? && Truthy(title) && Truthy(kind) && upload.UploadFailed? ==> FailsWith(r, 500)
    ensures r.Success? <==> AddNoteAccepted(caller, title, kind, listJson, upload)
    ensures r.Failure? ==> unchanged(db)
    ensures r.Success? ==> r.value.statusCode == 201 && db.notes == old(db.notes) + [r.value.data]
    ensures r.Success? ==> db.users == old(db.users) && db.labels == old(db.labels) && db.grants == old(db.grants)
    ensures r.Success? ==>
      var n := r.value.data;
      && n.owner == caller.value && n.title == Trim(title.value)
      && n.content == (if Truthy(content) then Some(Trim(content.value)) else None)
      && n.imageUrl == ImageUrlFor(kind.value, upload)
      && n.listItems == (if kind.value == "list" then listJson.value else [])
      && Some(n.kind) == ParseNoteType(kind.value)
      && !n.isPinned && !n.isArchived && !n.isTrashed && n.labels == [] && n.trashedAt.None?
  {
    if caller.None? {
      return Failure(Raise(401, NotAuthenticated));
    }
    if !Truthy(title) || !Truthy(kind) {
      return Failure(Raise(400, "Title and type are required"));
    }
    if upload.UploadFailed? {
      return Failure(Raise(500, "Error uploading on Cloudinary"));
    }
    if kind.value == "list" && listJson.None? {
      return Failure(Unexpected("SyntaxError"));
    }
    var fields := NoteFields(
      title.value,
      if Truthy(content) then Present(content.value) else Given.Null,
      Some(kind.value),
      caller.value,
      ListItemsFor(kind.value, listJson),
      ImageUrlFor(kind.value, upload));
    var created := db.InsertNote(fields);
    if created.Failure? {
      return Failure(Unexpected("ValidationError"));
    }
    r := Respond(201, created.value, "Note added successfully");
  }

  // ----------------------------------------------------------------- editNote

  /** The `$set` of editNote. */
  datatype NoteEdit = NoteEdit(title: string, content: Option<string>, owner: Id,
                               imageUrl: Option<string>, listItems: seq<string>)

  /**
   * The document after editNote's `$set`: title, content, owner, imageUrl and
   * listItems are overwritten (the title trimmed by its setter, without the
   * `required` validator, which updates do not run); the type, the labels,
   * the flags and trashedAt are untouched.
   */
  function ApplyEdit(n: Note, e: NoteEdit): (r: Note)
    ensures r.id == n.id && r.kind == n.kind && r.labels == n.labels
    ensures r.isPinned == n.isPinned && r.isArchived == n.isArchived && r.isTrashed == n.isTrashed
    ensures r.trashedAt == n.trashedAt && r.reminder == n.reminder && r.notification == n.notification
    ensures r.owner == e.owner && r.title == Trim(e.title) && r.imageUrl == e.imageUrl && r.listItems == e.listItems
    ensures e.content.None? ==> r.content.None?
    ensures e.content.Some? ==> r.content == Some(Trim(e.content.value))
  {
    n.(title := Trim(e.title),
       content := match e.content case None => None case Some(c) => Some(Trim(c)),
       owner := e.owner, imageUrl := e.imageUrl, listItems := e.listItems)
  }

  /** editNote: `findByIdAndUpdate` by id alone, which also hands the note to the caller. */
  method EditNote(db: Store, caller: Option<Id>, id: Option<Id>, title: Option<string>, content: Option<string>,
                  kind: Option<string>, listJson: Option<seq<string>>, upload: Upload)
    returns (r: Reply<Note>)
    requires db.Valid()
    modifies db
    ensures db.Valid()
    ensures r.Failure? ==> unchanged(db)
    ensures caller.None? ==> r == Failure(Raise(401, NotAuthenticated))
    ensures caller.Some? && (id.None? || !Truthy(title) || !Truthy(kind)) ==> FailsWith(r, 400)
    ensures caller.Some? && id.Some? && Truthy(title) && Truthy(kind) && upload.UploadFailed? ==> FailsWith(r, 500)
    ensures caller.Some? && id.Some? && Truthy(title) && Truthy(kind) && !upload.UploadFailed?
            && (kind.value == "list" ==> listJson.Some?) && FindNote(old(db.notes), id.value).None?
            ==> r == Failure(Raise(500, "Error updating note"))
    ensures r.Success? <==>
              && caller.Some? && id.Some? && Truthy(title) && Truthy(kind) && !upload.UploadFailed?
              && (kind.value == "list" ==> listJson.Some?) && FindNote(old(db.notes), id.value).Some?
    ensures r.Success? ==>
              var i := FindNote(old(db.notes), id.value).value;
              var e := NoteEdit(title.value, if Truthy(content) then Some(content.value) else None, caller.value,
                                ImageUrlFor(kind.value, upload), if kind.value == "list" then listJson.value else []);
              && r.value.statusCode == 200 && r.value.data == old(db.notes)[i]
              && db.notes == old(db.notes)[i := ApplyEdit(old(db.notes)[i], e)]
    ensures db.users == old(db.users) && db.labels == old(db.labels) && db.grants == old(db.grants)
  {
    if caller.None? {
      return Failure(Raise(401, NotAuthenticated));
    }
    if id.None? {
      return Failure(Raise(400, "Note id is required"));
    }
    if !Truthy(title) || !Truthy(kind) {
      return Failure(Raise(400, "Title and type are required"));
    }
    if upload.UploadFailed? {
      return Failure(Raise(500, "Error uploading image to Cloudinary"));
    }
    if kind.value == "list" && listJson.None? {
      return Failure(Unexpected("SyntaxError"));
    }
    var e := NoteEdit(title.value, if Truthy(content) then Some(content.value) else None, caller.value,
                      ImageUrlFor(kind.value, upload), ListItemsFor(kind.value, listJson));
    var found := FindNote(db.notes, id.value);
    if found.None? {
      return Failure(Raise(500, "Error updating note"));
    }
    var before := db.notes[found.value];
    db.ReplaceNote(found.value, ApplyEdit(before, e));
    r := Respond(200, before, "Note updated successfully");
  }

  // --------------------------------------------------------------- deleteNote

  /** deleteNote: only the owner's note is found; its grants go first, then the note. */
  method DeleteNote(db: Store, caller: Option<Id>, id: Option<Id>) returns (r: Reply<NoData>)
    requires db.Valid()
    modifies db
    ensures db.Valid()
    ensures r.Failure? ==> unchanged(db)
    ensures caller.None? ==> r == Failure(Raise(401, NotAuthenticated))
    ensures caller.Some? && id.None? ==> FailsWith(r, 400)
    ensures caller.Some? && id.Some? && FindOwnedNote(old(db.notes), id.value, caller.value).None? ==> FailsWith(r, 404)
    ensures r.Success? <==> caller.Some? && id.Some? && FindOwnedNote(old(db.notes), id.value, caller.value).Some?
    ensures r.Success? ==>
              && r.value.statusCode == 200
              && db.grants == GrantsNotOn(old(db.grants), id.value)
              && db.notes == RemoveAt(old(db.notes), FindOwnedNote(old(db.notes), id.value, caller.value).value)
              && (forall j :: 0 <= j < |db.notes| ==> db.notes[j].id != id.value)
    ensures db.users == old(db.users) && db.labels == old(db.labels)
  {
    if caller.None? {
      return Failure(Raise(401, NotAuthenticated));
    }
    if id.None? {
      return Failure(Raise(400, "Note id is required"));
    }
    var owned := FindOwnedNote(db.notes, id.value, caller.value);
    if owned.None? {
      return Failure(Raise(404, "Not not found or you don't have the permission to delete the note"));
    }
    db.DeleteGrantsOn(id.value);
    var found := FindNote(db.notes, id.value);
    assert found == owned by {
      assert NoteKey(db.notes[found.value]) == NoteKey(db.notes[owned.value]);
    }
    db.DeleteNoteAt(found.value);
    r := Respond(200, NullData, "Note deleted successfully");
  }

  // ------------------------------------------------------------ label on note

  /** The error both label handlers throw when the caller has no note with that id: the message lands in the status code. */
  function NoteNotFoundAsWritten(): (t: Thrown)
    ensures t.Raised? && t.error.statusCode == TextCode("Note not found")
    ensures t.error.message == DefaultErrorMessage
  {
    Raised(NewApiError(TextCode("Note not found"), None, None))
  }

  /** The guards shared by addLabelToNote and removeLabelFromNote, in order; None when all pass. */
  function LabelGuard(labels: seq<Label>, notes: seq<Note>, caller: Option<Id>, labelId: Option<Id>,
                      noteId: Option<Id>): (t: Option<Thrown>)
    ensures caller.None? ==> t == Some(Raise(401, NotAuthenticated))
    ensures caller.Some? && (labelId.None? || noteId.None?) ==> t == Some(Raise(400, "LableID and NoteID both are required"))
    ensures caller.Some? && labelId.Some? && noteId.Some? && FindLabel(labels, labelId.value).None?
            ==> t == Some(Raise(404, "Label not found"))
    ensures caller.Some? && labelId.Some? && noteId.Some? && FindLabel(labels, labelId.value).Some?
            && labels[FindLabel(labels, labelId.value).value].owner != caller.value
            ==> t == Some(Raise(401, "You do not have permission to use this label"))
    ensures caller.Some? && labelId.Some? && noteId.Some? && FindLabel(labels, labelId.value).Some?
            && labels[FindLabel(labels, labelId.value).value].owner == caller.value
            && FindOwnedNote(notes, noteId.value, caller.value).None?
            ==> t == Some(NoteNotFoundAsWritten())
    ensures t.None? <==>
              && caller.Some? && labelId.Some? && noteId.Some? && FindLabel(labels, labelId.value).Some?
              && labels[FindLabel(labels, labelId.value).value].owner == caller.value
              && FindOwnedNote(notes, noteId.value, caller.value).Some?
  {
    if caller.None? then Some(Raise(401, NotAuthenticated))
    else if labelId.None? || noteId.None? then Some(Raise(400, "LableID and NoteID both are required"))
    else match FindLabel(labels, labelId.value)
      case None => Some(Raise(404, "Label not found"))
      case Some(l) =>
        if labels[l].owner != caller.value then Some(Raise(401, "You do not have permission to use this label"))
        else if FindOwnedNote(notes, noteId.value, caller.value).None? then Some(NoteNotFoundAsWritten())
        else None
  }

  /** `$pull`: every occurrence of the label id goes, the rest keep their order. */
  function WithoutLabel(ids: seq<Id>, labelId: Id): (r: seq<Id>)
    ensures labelId !in r
    ensures forall x :: x in r <==> x in ids && x != labelId
  {
    var keep := (x: Id) => x != labelId;
    FilterMembers(ids, keep);
    Filter(ids, keep)
  }

  /** addLabelToNote: `$push` of the label id onto the caller's note; a repeated id is pushed again. */
  method AddLabelToNote(db: Store, caller: Option<Id>, labelId: Option<Id>, noteId: Option<Id>)
    returns (r: Reply<Note>)
    requires db.Valid()
    modifies db
    ensures db.Valid()
    ensures var guard := LabelGuard(old(db.labels), old(db.notes), caller, labelId, noteId);
      && (guard.Some? <==> r.Failure?)
      && (guard.Some? ==> r.error == guard.value && unchanged(db))
    ensures r.Success? ==>
              var i := FindOwnedNote(old(db.notes), noteId.value, caller.value).value;
              var n := old(db.notes)[i].(labels := old(db.notes)[i].labels + [labelId.value]);
              && db.notes == old(db.notes)[i := n]
              && r.value.statusCode == 200 && r.value.data == n
    ensures db.users == old(db.users) && db.labels == old(db.labels) && db.grants == old(db.grants)
  {
    var guard := LabelGuard(db.labels, db.notes, caller, labelId, noteId);
    if guard.Some? {
      return Failure(guard.value);
    }
    var i := FindOwnedNote(db.notes, noteId.value, caller.value).value;
    var n := db.notes[i].(labels := db.notes[i].labels + [labelId.value]);
    db.ReplaceNote(i, n);
    r := Respond(200, n, "Label added successfully");
  }

  /** removeLabelFromNote: `$pull` of the label id from the caller's note, after the same guards. */
  method RemoveLabelFromNote(db: Store, caller: Option<Id>, labelId: Option<Id>, noteId: Option<Id>)
    returns (r: Reply<NoData>)
    requires db.Valid()
    modifies db
    ensures db.Valid()
    ensures var guard := LabelGuard(old(db.labels), old(db.notes), caller, labelId, noteId);
      && (guard.Some? <==> r.Failure?)
      && (guard.Some? ==> r.error == guard.value && unchanged(db))
    ensures r.Success? ==>
              var i := FindOwnedNote(old(db.notes), noteId.value, caller.value).value;
              && db.notes == old(db.notes)[i := old(db.notes)[i].(labels := WithoutLabel(old(db.notes)[i].labels, labelId.value))]
              && r.value.statusCode == 200 && r.value.data == EmptyObject
    ensures db.users == old(db.users) && db.labels == old(db.labels) && db.grants == old(db.grants)
  {
    var guard := LabelGuard(db.labels, db.notes, caller, labelId, noteId);
    if guard.Some? {
      return Failure(guard.value);
    }
    var i := FindOwnedNote(db.notes, noteId.value, caller.value).value;
    db.ReplaceNote(i, db.notes[i].(labels := WithoutLabel(db.notes[i].labels, labelId.value)));
    r := Respond(200, EmptyObject, "Label removed successfully");
  }

  // ------------------------------------------------------------------- flags

  /** The state a handler flips: archived, pinned, or trashed together with the time stored in trashedAt. */
  datatype Flag = Archived | Pinned | Trashed(at: Option<int>)

  function WithFlag(n: Note, f: Flag, v: bool): Note {
    match f
    case Archived => n.(isArchived := v)
    case Pinned => n.(isPinned := v)
    case Trashed(at) => n.(isTrashed := v, trashedAt := at)
  }

  /** The notes after one flag of the note with this id is set to `v`; every other field and note is kept. */
  function SetFlagById(notes: seq<Note>, id: Id, f: Flag, v: bool): (r: seq<Note>)
    ensures |r| == |notes|
    ensures FindNote(notes, id).None? ==> r == notes
    ensures FindNote(notes, id).Some? ==>
              var i := FindNote(notes, id).value;
              && r == notes[i := WithFlag(notes[i], f, v)]
              && (f == Archived ==> r[i].isArchived == v && r[i].(isArchived := notes[i].isArchived) == notes[i])
              && (f == Pinned ==> r[i].isPinned == v && r[i].(isPinned := notes[i].isPinned) == notes[i])
              && (f.Trashed? ==>
                    && r[i].isTrashed == v && r[i].trashedAt == f.at
                    && r[i].(isTrashed := notes[i].isTrashed, trashedAt := notes[i].trashedAt) == notes[i])
  {
    match FindNote(notes, id)
    case None => notes
    case Some(i) => notes[i := WithFlag(notes[i], f, v)]
  }

  /** Replacing a note by one with the same id does not move where `findById` finds any id. */
  lemma FindNoteAfterReplace(notes: seq<Note>, i: nat, n: Note, id: Id)
    requires i < |notes| && n.id == notes[i].id
    ensures FindNote(notes[i := n], id) == FindNote(notes, id)
  {
    assert forall j :: 0 <= j < |notes| ==> (notes[i := n][j].id == id <==> notes[j].id == id);
  }

  /** Setting a flag twice leaves the same notes as setting it once. */
  lemma SetFlagIdempotent(notes: seq<Note>, id: Id, f: Flag, v: bool)
    ensures SetFlagById(SetFlagById(notes, id, f, v), id, f, v) == SetFlagById(notes, id, f, v)
  {
    var once := SetFlagById(notes, id, f, v);
    if FindNote(notes, id).Some? {
      var i := FindNote(notes, id).value;
      FindNoteAfterReplace(notes, i, WithFlag(notes[i], f, v), id);
    }
  }

  /**
   * What `note.save()` checks on a loaded note: the required title must be
   * non-empty. A note can fail it, because editNote's update stores the
   * trimmed title without running validators (`EditCanBlankTitle`).
   */
  predicate PassesSaveValidation(n: Note) { n.title != "" }

  /** An edit whose title is white space stores the empty title, which a later `save()` refuses. */
  lemma EditCanBlankTitle(n: Note, owner: Id)
    ensures !PassesSaveValidation(ApplyEdit(n, NoteEdit("  ", None, owner, None, [])))
  {
    TrimAllSpaces("  ");
  }

  /**
   * The outcome of a flag handler: 401, then 400, then 404 when no note has
   * that id, then the ValidationError of `save()` (a 500) when the stored
   * note fails validation; otherwise the flag is set, whoever owns the note,
   * and the reply is 200 with `{}` and the handler's message.
   */
  ghost predicate FlagOutcome(before: seq<Note>, after: seq<Note>, caller: Option<Id>, id: Option<Id>,
                              f: Flag, v: bool, message: string, r: Reply<NoData>)
  {
    && (caller.None? ==> r == Failure(Raise(401, NotAuthenticated)))
    && (caller.Some? && id.None? ==> r == Failure(Raise(400, "Note id is required")))
    && (caller.Some? && id.Some? && FindNote(before, id.value).None? ==> r == Failure(Raise(404, "Note not found")))
    && (caller.Some? && id.Some? && FindNote(before, id.value).Some?
        && !PassesSaveValidation(before[FindNote(before, id.value).value])
        ==> r == Failure(Unexpected("ValidationError")))
    && (r.Success? <==> caller.Some? && id.Some? && FindNote(before, id.value).Some?
                        && PassesSaveValidation(before[FindNote(before, id.value).value]))
    && (r.Success? ==> after == SetFlagById(before, id.value, f, v) && r.value == ApiResponse(200, EmptyObject, message))
    && (r.Failure? ==> after == before)
  }

  method SetFlag(db: Store, caller: Option<Id>, id: Option<Id>, f: Flag, v: bool, message: string)
    returns (r: Reply<NoData>)
    requires db.Valid()
    modifies db
    ensures db.Valid()
    ensures FlagOutcome(old(db.notes), db.notes, caller, id, f, v, message, r)
    ensures db.users == old(db.users) && db.labels == old(db.labels) && db.grants == old(db.grants)
    ensures db.nextId == old(db.nextId)
  {
    if caller.None? {
      return Failure(Raise(401, NotAuthenticated));
    }
    if id.None? {
      return Failure(Raise(400, "Note id is required"));
    }
    var found := FindNote(db.notes, id.value);
    if found.None? {
      return Failure(Raise(404, "Note not found"));
    }
    if !PassesSaveValidation(db.notes[found.value]) {
      return Failure(Unexpected("ValidationError"));
    }
    db.ReplaceNote(found.value, WithFlag(db.notes[found.value], f, v));
    r := Respond(200, EmptyObject, message);
  }

  /** archiveNote: sets isArchived, whoever owns the note. */
  method ArchiveNote(db: Store, caller: Option<Id>, id: Option<Id>) returns (r: Reply<NoData>)
    requires db.Valid()
    modifies db
    ensures db.Valid()
    ensures FlagOutcome(old(db.notes), db.notes, caller, id, Archived, true, "Note Archived successfully", r)
    ensures db.users == old(db.users) && db.labels == old(db.labels) && db.grants == old(db.grants)
  {
    r := SetFlag(db, caller, id, Archived, true, "Note Archived successfully");
  }

  /** unarchiveNote: clears isArchived, whoever owns the note. */
  method UnarchiveNote(db: Store, caller: Option<Id>, id: Option<Id>) returns (r: Reply<NoData>)
    requires db.Valid()
    modifies db
    ensures db.Valid()
    ensures FlagOutcome(old(db.notes), db.notes, caller, id, Archived, false, "Note Unarchived successfully", r)
    ensures db.users == old(db.users) && db.labels == old(db.labels) && db.grants == old(db.grants)
  {
    r := SetFlag(db, caller, id, Archived, false, "Note Unarchived successfully");
  }

  /** pinNote: sets isPinned, whoever owns the note. */
  method PinNote(db: Store, caller: Option<Id>, id: Option<Id>) returns (r: Reply<NoData>)
    requires db.Valid()
    modifies db
    ensures db.Valid()
    ensures FlagOutcome(old(db.notes), db.notes, caller, id, Pinned, true, "Note Pinned successfully", r)
    ensures db.users == old(db.users) && db.labels == old(db.labels) && db.grants == old(db.grants)
  {
    r := SetFlag(db, caller, id, Pinned, true, "Note Pinned successfully");
  }

  /** unpinNote: clears isPinned, whoever owns the note. */
  method UnpinNote(db: Store, caller: Option<Id>, id: Option<Id>) returns (r: Reply<NoData>)
    requires db.Valid()
    modifies db
    ensures db.Valid()
    ensures FlagOutcome(old(db.notes), db.notes, caller, id, Pinned, false, "Note Pinned successfully", r)
    ensures db.users == old(db.users) && db.labels == old(db.labels) && db.grants == old(db.grants)
  {
    r := SetFlag(db, caller, id, Pinned, false, "Note Pinned successfully");
  }

  // ------------------------------------------------------------------- trash

  /**
   * trashNote: sets isTrashed and stores `new Date().getDate()` in trashedAt.
   * That is the day of the month (1..31), which Mongoose casts to a Date
   * that many milliseconds after the epoch.
   */
  method TrashNote(db: Store, caller: Option<Id>, id: Option<Id>, dayOfMonth: int) returns (r: Reply<NoData>)
    requires db.Valid()
    modifies db
    ensures db.Valid()
    ensures FlagOutcome(old(db.notes), db.notes, caller, id, Trashed(Some(dayOfMonth)), true, "Note Trashed successfully", r)
    ensures db.users == old(db.users) && db.labels == old(db.labels) && db.grants == old(db.grants)
  {
    r := SetFlag(db, caller, id, Trashed(Some(dayOfMonth)), true, "Note Trashed successfully");
  }

  /** trashNote as intended: trashedAt records the moment of trashing, in milliseconds since the epoch. */
  method TrashNoteAt(db: Store, caller: Option<Id>, id: Option<Id>, now: int) returns (r: Reply<NoData>)
    requires db.Valid()
    modifies db
    ensures db.Valid()
    ensures FlagOutcome(old(db.notes), db.notes, caller, id, Trashed(Some(now)), true, "Note Trashed successfully", r)
    ensures db.users == old(db.users) && db.labels == old(db.labels) && db.grants == old(db.grants)
  {
    r := SetFlag(db, caller, id, Trashed(Some(now)), true, "Note Trashed successfully");
  }

  /** restoreTrashNote: clears isTrashed and trashedAt, whoever owns the note; its message also says "Trashed". */
  method RestoreTrashNote(db: Store, caller: Option<Id>, id: Option<Id>) returns (r: Reply<NoData>)
    requires db.Valid()
    modifies db
    ensures db.Valid()
    ensures FlagOutcome(old(db.notes), db.notes, caller, id, Trashed(None), false, "Note Trashed successfully", r)
    ensures db.users == old(db.users) && db.labels == old(db.labels) && db.grants == old(db.grants)
  {
    r := SetFlag(db, caller, id, Trashed(None), false, "Note Trashed successfully");
  }

  // ----------------------------------------------------------------- queries

  predicate IsPinned(n: Note) { n.isPinned }
  predicate IsUnpinned(n: Note) { !n.isPinned }

  /** A block of pinned notes followed by a block of unpinned ones has no pinned note after an unpinned one. */
  lemma PinnedBlockFirst(pinned: seq<Note>, rest: seq<Note>)
    requires forall i :: 0 <= i < |pinned| ==> pinned[i].isPinned
    requires forall i :: 0 <= i < |rest| ==> !rest[i].isPinned
    ensures forall i, j :: 0 <= i < j < |pinned + rest| && !(pinned + rest)[i].isPinned ==> !(pinned + rest)[j].isPinned
  {
    var r := pinned + rest;
    forall i, j | 0 <= i < j < |r| && !r[i].isPinned ensures !r[j].isPinned {
      assert j >= |pinned|;
      assert r[j] == rest[j - |pinned|];
    }
  }

  /** `$sort: {isPinned: -1}`, realised as a stable partition: pinned notes, then the others. */
  function PinnedFirst(ns: seq<Note>): (r: seq<Note>)
    ensures multiset(r) == multiset(ns)
    ensures forall i, j :: 0 <= i < j < |r| && !r[i].isPinned ==> !r[j].isPinned
  {
    var pinned, rest := Filter(ns, IsPinned), Filter(ns, IsUnpinned);
    FilterSplit(ns, IsPinned, IsUnpinned);
    PinnedBlockFirst(pinned, rest);
    pinned + rest
  }

  /** getAllNotes: exactly the caller's notes (joined with their owner), pinned ones first. */
  function GetAllNotes(db: Store, caller: Option<Id>): (r: Reply<seq<Note>>)
    reads db
    ensures caller.None? ==> r == Failure(Raise(401, NotAuthenticated))
    ensures caller.Some? ==> r.Success? && r.value.statusCode == 200
    ensures r.Success? ==> forall n :: n in r.value.data <==>
              n in db.notes && n.owner == caller.value && FindUser(db.users, caller.value).Some?
    ensures r.Success? && FindUser(db.users, caller.value).Some? ==>
              multiset(r.value.data) == multiset(Filter(db.notes, (n: Note) => n.owner == caller.value))
    ensures r.Success? ==>
              forall i, j :: 0 <= i < j < |r.value.data| && !r.value.data[i].isPinned ==> !r.value.data[j].isPinned
  {
    match caller
    case None => Failure(Raise(401, NotAuthenticated))
    case Some(c) =>
      var mine := (n: Note) => n.owner == c;
      FilterMembers(db.notes, mine);
      var owned := if FindUser(db.users, c).Some? then Filter(db.notes, mine) else [];
      var sorted := PinnedFirst(owned);
      assert forall n :: n in sorted <==> n in owned by {
        forall n ensures n in sorted <==> n in owned {
          assert n in sorted <==> n in multiset(sorted);
        }
      }
      Respond(200, sorted, "Notes fetched successfully")
  }

  /**
   * getNote: the notes with that id whose owner exists (so none or one),
   * whoever the caller is. An unknown id is not an error: the reply is 200
   * with an empty list.
   */
  function GetNote(db: Store, caller: Option<Id>, id: Option<Id>): (r: Reply<seq<Note>>)
    reads db
    requires db.Valid()
    ensures caller.None? ==> r == Failure(Raise(401, NotAuthenticated))
    ensures caller.Some? && id.None? ==> r == Failure(Raise(400, "Note id is required"))
    ensures caller.Some? && id.Some? ==> r.Success? && r.value.statusCode == 200
    ensures r.Success? ==> |r.value.data| <= 1
    ensures r.Success? ==> forall n :: n in r.value.data <==>
              n in db.notes && n.id == id.value && FindUser(db.users, n.owner).Some?
  {
    if caller.None? then Failure(Raise(401, NotAuthenticated))
    else if id.None? then Failure(Raise(400, "Note id is required"))
    else
      var users := db.users;
      var matches := (n: Note) => n.id == id.value && FindUser(users, n.owner).Some?;
      var found := Filter(db.notes, matches);
      FilterMembers(db.notes, matches);
      FilterUnique(db.notes, matches, NoteKey);
      assert 1 < |found| ==> NoteKey(found[0]) != NoteKey(found[1]);
      Respond(200, found, "Note fetched successfully")
  }

  /** One row of getCollabNotes: a grant to the caller joined with its note. */
  datatype CollabRow = CollabRow(grant: Grant, note: Note)

  /** The grants to `caller`, in natural order, each joined with its note; grants whose note or user is gone drop out. */
  function CollabRows(grants: seq<Grant>, users: seq<User>, notes: seq<Note>, caller: Id): (r: seq<CollabRow>)
    ensures |r| <= |grants|
    ensures forall k :: 0 <= k < |r| ==>
              && r[k].grant in grants && r[k].grant.user == caller
              && r[k].note in notes && r[k].note.id == r[k].grant.note
  {
    if grants == [] then []
    else
      var g, rest := grants[0], CollabRows(grants[1..], users, notes, caller);
      var found := FindNote(notes, g.note);
      if g.user == caller && FindUser(users, caller).Some? && found.Some? then
        [CollabRow(g, notes[found.value])] + rest
      else rest
  }

  /** Every grant to the caller whose note and user exist shows up. */
  lemma {:induction false} CollabRowsComplete(grants: seq<Grant>, users: seq<User>, notes: seq<Note>, caller: Id, k: nat)
    requires k < |grants| && grants[k].user == caller
    requires FindUser(users, caller).Some? && FindNote(notes, grants[k].note).Some?
    ensures exists m :: 0 <= m < |CollabRows(grants, users, notes, caller)|
                        && CollabRows(grants, users, notes, caller)[m].grant == grants[k]
  {
    var r := CollabRows(grants, users, notes, caller);
    if k == 0 {
      assert r[0].grant == grants[0];
    } else {
      CollabRowsComplete(grants[1..], users, notes, caller, k - 1);
      var rest := CollabRows(grants[1..], users, notes, caller);
      var m :| 0 <= m < |rest| && rest[m].grant == grants[k];
      if |r| == |rest| + 1 {
        assert r[m + 1] == rest[m];
      } else {
        assert r == rest;
      }
    }
  }

  /** getCollabNotes: one row for each grant to the caller whose note exists, when the caller's user exists. */
  function GetCollabNotes(db: Store, caller: Option<Id>): (r: Reply<seq<CollabRow>>)
    reads db
    ensures caller.None? ==> r == Failure(Raise(401, NotAuthenticated))
    ensures caller.Some? ==> r.Success? && r.value.statusCode == 200
    ensures r.Success? ==> forall k :: 0 <= k < |r.value.data| ==>
              && r.value.data[k].grant in db.grants && r.value.data[k].grant.user == caller.value
              && r.value.data[k].note in db.notes && r.value.data[k].note.id == r.value.data[k].grant.note
    ensures r.Success? && FindUser(db.users, caller.value).Some? ==>
              forall g :: g in db.grants && g.user == caller.value && FindNote(db.notes, g.note).Some? ==>
                exists k :: 0 <= k < |r.value.data| && r.value.data[k].grant == g
  {
    match caller
    case None => Failure(Raise(401, NotAuthenticated))
    case Some(c) =>
      var rows := CollabRows(db.grants, db.users, db.notes, c);
      assert forall g :: g in db.grants && g.user == c && FindUser(db.users, c).Some? && FindNote(db.notes, g.note).Some? ==>
               exists k :: 0 <= k < |rows| && rows[k].grant == g by {
        forall g | g in db.grants && g.user == c && FindUser(db.users, c).Some? && FindNote(db.notes, g.note).Some?
          ensures exists k :: 0 <= k < |rows| && rows[k].grant == g
        {
          var i :| 0 <= i < |db.grants| && db.grants[i] == g;
          CollabRowsComplete(db.grants, db.users, db.notes, c, i);
        }
      }
      Respond(200, rows, "Notes fetched successfully")
  }
}
