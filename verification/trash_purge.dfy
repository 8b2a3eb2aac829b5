/**
 * deleteOldNotes, the daily purge of the trash. It selects the notes whose
 * trashedAt lies more than ten days in the past and, for each, deletes the
 * grants on it and then the note. As written, the note deletion refers to
 * an undefined `id`: the callback throws a ReferenceError after the grants
 * are gone, so the notes stay. Times are milliseconds since the epoch.
 */
module TrashPurge {
  import opened Wrappers
  import opened Seqs
  import opened Schema
  import opened Db
  import opened NoteController

  const DayMs: int := 86_400_000
  const RetentionDays: int := 10

  /** `tenDaysAgo`: ten days before `now`. */
  function Cutoff(now: int): (c: int)
    ensures now - c == RetentionDays * DayMs
  {
    now - RetentionDays * DayMs
  }

  /** `{trashedAt: {$lt: cutoff}}`: a note without trashedAt never matches, and isTrashed plays no part. */
  predicate Expired(cutoff: int, n: Note) {
    n.trashedAt.Some? && n.trashedAt.value < cutoff
  }

  /** `Note.find({trashedAt: {$lt: tenDaysAgo}})`, in natural order. */
  function SelectExpired(notes: seq<Note>, now: int): (r: seq<Note>)
    ensures forall n :: n in r <==> n in notes && n.trashedAt.Some? && n.trashedAt.value < Cutoff(now)
    ensures forall k :: 0 <= k < |r| ==> Expired(Cutoff(now), r[k])
  {
    var keep := (n: Note) => Expired(Cutoff(now), n);
    FilterMembers(notes, keep);
    Filter(notes, keep)
  }

  /** Restoring a note is the only way out of the selection: flipping isTrashed alone does not change it. */
  lemma SelectionIgnoresIsTrashed(n: Note, b: bool, now: int)
    ensures Expired(Cutoff(now), n.(isTrashed := b)) == Expired(Cutoff(now), n)
  {
  }

  function NoteIds(ns: seq<Note>): (r: seq<Id>)
    ensures |r| == |ns| && forall k :: 0 <= k < |ns| ==> r[k] == ns[k].id
  {
    if ns == [] then [] else [ns[0].id] + NoteIds(ns[1..])
  }

  /** The grants on none of these notes. */
  function OffAll(ids: seq<Id>): Grant -> bool {
    (g: Grant) => g.note !in ids
  }

  /** The notes with none of these ids. */
  function NoteNotIn(ids: seq<Id>): Note -> bool {
    (n: Note) => n.id !in ids
  }

  /** A note with this id is what `findByIdAndDelete(id)` leaves alone. */
  function NoteNot(id: Id): Note -> bool {
    (n: Note) => n.id != id
  }

  /** `findByIdAndDelete(id)` on notes with unique ids: the note with that id goes, if there is one. */
  lemma DeleteByIdIsFilter(notes: seq<Note>, found: Option<nat>, id: Id)
    requires UniqueBy(notes, NoteKey)
    requires found == FindNote(notes, id)
    ensures found.Some? ==> RemoveAt(notes, found.value) == Filter(notes, NoteNot(id))
    ensures found.None? ==> notes == Filter(notes, NoteNot(id))
  {
    if found.Some? {
      RemoveAtIsFilter(notes, found.value, NoteKey, NoteNot(id));
    } else {
      FilterKeepsAll(notes, NoteNot(id));
    }
  }

  /** Dropping the grants on one more note, after those on the first `i`. */
  lemma GrantStep(g0: seq<Grant>, ids: seq<Id>, i: nat)
    requires i < |ids|
    ensures Filter(Filter(g0, OffAll(ids[..i])), NotOn(ids[i])) == Filter(g0, OffAll(ids[..i + 1]))
  {
    assert ids[..i + 1] == ids[..i] + [ids[i]];
    FilterFilter(g0, OffAll(ids[..i]), NotOn(ids[i]), OffAll(ids[..i + 1]));
  }

  /** Dropping one more note, after the first `i`. */
  lemma NoteStep(n0: seq<Note>, ids: seq<Id>, i: nat)
    requires i < |ids|
    ensures Filter(Filter(n0, NoteNotIn(ids[..i])), NoteNot(ids[i])) == Filter(n0, NoteNotIn(ids[..i + 1]))
  {
    assert ids[..i + 1] == ids[..i] + [ids[i]];
    FilterFilter(n0, NoteNotIn(ids[..i]), NoteNot(ids[i]), NoteNotIn(ids[..i + 1]));
  }

  /**
   * deleteOldNotes as written: every grant on a selected note is deleted,
   * and no note is.
   */
  method PurgeAsWritten(db: Store, now: int)
    requires db.Valid()
    modifies db
    ensures db.Valid()
    ensures db.grants == Filter(old(db.grants), OffAll(NoteIds(SelectExpired(old(db.notes), now))))
    ensures db.notes == old(db.notes)
    ensures db.users == old(db.users) && db.labels == old(db.labels)
  {
    var selected := SelectExpired(db.notes, now);
    var ids := NoteIds(selected);
    ghost var g0 := db.grants;
    FilterKeepsAll(g0, OffAll(ids[..0]));
    var i := 0;
    while i < |selected|
      invariant 0 <= i <= |selected|
      invariant db.Valid()
      invariant db.grants == Filter(g0, OffAll(ids[..i]))
      invariant db.notes == old(db.notes) && db.users == old(db.users) && db.labels == old(db.labels)
    {
      db.DeleteGrantsOn(selected[i].id);
      GrantStep(g0, ids, i);
      // `Note.findByIdAndDelete(id)` throws here: `id` is not defined.
      i := i + 1;
    }
    assert ids[..|selected|] == ids;
  }

  /** deleteOldNotes as intended: the grants on every selected note, and the note itself, are deleted. */
  method Purge(db: Store, now: int)
    requires db.Valid()
    modifies db
    ensures db.Valid()
    ensures db.grants == Filter(old(db.grants), OffAll(NoteIds(SelectExpired(old(db.notes), now))))
    ensures db.notes == Filter(old(db.notes), NoteNotIn(NoteIds(SelectExpired(old(db.notes), now))))
    ensures db.users == old(db.users) && db.labels == old(db.labels)
  {
    var selected := SelectExpired(db.notes, now);
    var ids := NoteIds(selected);
    ghost var g0, n0 := db.grants, db.notes;
    FilterKeepsAll(g0, OffAll(ids[..0]));
    FilterKeepsAll(n0, NoteNotIn(ids[..0]));
    var i := 0;
    while i < |selected|
      invariant 0 <= i <= |selected|
      invariant db.Valid()
      invariant db.grants == Filter(g0, OffAll(ids[..i]))
      invariant db.notes == Filter(n0, NoteNotIn(ids[..i]))
      invariant db.users == old(db.users) && db.labels == old(db.labels)
    {
      db.DeleteGrantsOn(ids[i]);
      GrantStep(g0, ids, i);
      assert db.grants == Filter(g0, OffAll(ids[..i + 1]));
      ghost var before := db.notes;
      var found := FindNote(db.notes, ids[i]);
      DeleteByIdIsFilter(before, found, ids[i]);
      if found.Some? {
        db.DeleteNoteAt(found.value);
      }
      assert db.notes == Filter(before, NoteNot(ids[i]));
      NoteStep(n0, ids, i);
      i := i + 1;
    }
    assert ids[..|selected|] == ids;
  }

  /** With unique note ids, the intended purge removes exactly the expired notes. */
  lemma PurgeRemovesExactlyExpired(notes: seq<Note>, now: int)
    requires UniqueBy(notes, NoteKey)
    ensures forall n :: n in Filter(notes, NoteNotIn(NoteIds(SelectExpired(notes, now)))) <==>
                        n in notes && !Expired(Cutoff(now), n)
  {
    var ids := NoteIds(SelectExpired(notes, now));
    FilterMembers(notes, NoteNotIn(ids));
    forall n | n in notes ensures n.id in ids <==> Expired(Cutoff(now), n) {
      SelectedIdIffExpired(notes, now, n);
    }
  }

  /** With unique note ids, a note's id is among the selected ids exactly when the note is expired. */
  lemma SelectedIdIffExpired(notes: seq<Note>, now: int, n: Note)
    requires UniqueBy(notes, NoteKey) && n in notes
    ensures n.id in NoteIds(SelectExpired(notes, now)) <==> Expired(Cutoff(now), n)
  {
    if n.id in NoteIds(SelectExpired(notes, now)) {
      SelectedIdIsExpired(notes, now, n);
    }
    if Expired(Cutoff(now), n) {
      var selected := SelectExpired(notes, now);
      var k :| 0 <= k < |selected| && selected[k] == n;
      assert NoteIds(selected)[k] == n.id;
    }
  }

  lemma SelectedIdIsExpired(notes: seq<Note>, now: int, n: Note)
    requires UniqueBy(notes, NoteKey) && n in notes
    requires n.id in NoteIds(SelectExpired(notes, now))
    ensures Expired(Cutoff(now), n)
  {
    var selected := SelectExpired(notes, now);
    var ids := NoteIds(selected);
    var k :| 0 <= k < |ids| && ids[k] == n.id;
    var m := selected[k];
    assert m in notes && Expired(Cutoff(now), m);
    var a :| 0 <= a < |notes| && notes[a] == n;
    var b :| 0 <= b < |notes| && notes[b] == m;
    assert NoteKey(notes[a]) == NoteKey(notes[b]);
  }

  /** A run that selects nothing changes nothing. */
  lemma EmptySelectionChangesNothing(notes: seq<Note>, grants: seq<Grant>, now: int)
    requires SelectExpired(notes, now) == []
    ensures Filter(grants, OffAll(NoteIds(SelectExpired(notes, now)))) == grants
    ensures Filter(notes, NoteNotIn(NoteIds(SelectExpired(notes, now)))) == notes
  {
    FilterKeepsAll(grants, OffAll([]));
    FilterKeepsAll(notes, NoteNotIn([]));
  }

  /**
   * trashNote stores the day of the month (1..31) as a time 1..31 ms after
   * the epoch, so from the eleventh day of 1970 on the next purge selects a
   * note the moment it is trashed.
   */
  lemma DayStampExpiresAtOnce(n: Note, dayOfMonth: int, now: int)
    requires 1 <= dayOfMonth <= 31
    requires now > RetentionDays * DayMs + 31
    ensures Expired(Cutoff(now), WithFlag(n, Trashed(Some(dayOfMonth)), true))
  {
  }

  /** With the moment of trashing stored, a note is selected exactly when more than ten days have passed. */
  lemma TimestampExpiresAfterTenDays(n: Note, trashedAt: int, now: int)
    ensures Expired(Cutoff(now), WithFlag(n, Trashed(Some(trashedAt)), true)) <==> now - trashedAt > RetentionDays * DayMs
  {
  }
}
