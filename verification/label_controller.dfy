/**
 * createLabel and deleteLabel. Labels belong to a user, but deleteLabel
 * never checks who owns the label, and deleting a label leaves its id in
 * every note that carries it.
 */
module LabelController {
  import opened Wrappers
  import opened Seqs
  import opened Text
  import opened Envelope
  import opened Schema
  import opened Db
  import opened Validation

  /**
   * createLabel: a failed name chain is reported as 401; otherwise the
   * caller gets one new label named with the trimmed name. `raw` is the
   * body's `name`; without `req.user` the handler dies on a TypeError.
   */
  method CreateLabel(db: Store, caller: Option<Id>, raw: Option<string>) returns (r: Reply<Label>)
    requires db.Valid()
    modifies db
    ensures db.Valid()
    ensures r.Failure? ==> unchanged(db)
    ensures LabelNameErrors(raw) != [] ==> r == Failure(Raise(401, "validation errros"))
    ensures LabelNameErrors(raw) == [] && caller.None? ==> r.Failure? && r.error.Unexpected?
    ensures r.Success? <==> LabelNameErrors(raw) == [] && caller.Some?
    ensures r.Success? ==>
              && db.labels == old(db.labels) + [r.value.data]
              && r.value.data.owner == caller.value && r.value.data.name == SanitizeLabelName(raw)
              && 1 <= |r.value.data.name| <= 50 && Trim(r.value.data.name) == r.value.data.name
              && r.value.statusCode == 201
    ensures db.users == old(db.users) && db.notes == old(db.notes) && db.grants == old(db.grants)
  {
    if LabelNameErrors(raw) != [] {
      return Failure(Raise(401, "validation errros"));
    }
    if caller.None? {
      return Failure(Unexpected("TypeError"));
    }
    var name := SanitizeLabelName(raw);
    AcceptedLabelNameShape(raw);
    var created := db.InsertLabel(caller.value, name);
    if created.Failure? {
      assert false;
      return Failure(Unexpected("ValidationError"));
    }
    r := Respond(201, created.value, "Label created successfully");
  }

  /**
   * deleteLabel: 400 without an id, 404 when no label has it; otherwise that
   * label goes, whoever owns it, and the notes are left as they are.
   */
  method DeleteLabel(db: Store, id: Option<Id>) returns (r: Reply<NoData>)
    requires db.Valid()
    modifies db
    ensures db.Valid()
    ensures r.Failure? ==> unchanged(db)
    ensures id.None? ==> r == Failure(Raise(400, "Label Id is required"))
    ensures id.Some? && FindLabel(old(db.labels), id.value).None? ==> r == Failure(Raise(404, "Label not found"))
    ensures r.Success? <==> id.Some? && FindLabel(old(db.labels), id.value).Some?
    ensures r.Success? ==>
              && db.labels == RemoveAt(old(db.labels), FindLabel(old(db.labels), id.value).value)
              && (forall j :: 0 <= j < |db.labels| ==> db.labels[j].id != id.value)
              && r.value == ApiResponse(200, EmptyObject, "Label deleted successfully")
    ensures db.notes == old(db.notes) && db.users == old(db.users) && db.grants == old(db.grants)
  {
    if id.None? {
      return Failure(Raise(400, "Label Id is required"));
    }
    var found := FindLabel(db.labels, id.value);
    if found.None? {
      return Failure(Raise(404, "Label not found"));
    }
    db.DeleteLabelAt(found.value);
    r := Respond(200, EmptyObject, "Label deleted successfully");
  }
}
