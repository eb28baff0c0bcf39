/** The label routes (src/controller/label_controller.rs). Labels are
    created, read, renamed and deleted for the authenticated `caller`; no
    user has two labels with one title. */
module LabelController {
  import opened Common
  import opened Errors
  import opened Entities
  import opened LabelForm
  import opened Store

  const LABEL_NOT_FOUND := "Label not found."
  const LABEL_EXISTS := "Label already exists."
  const LABEL_DELETED := "Label deleted successfully"

  const NotFound: AppError := SeaOrm(RecordNotFound(LABEL_NOT_FOUND))

  /** `get_labels`: every label of every user, in table order. */
  method GetLabels(db: Db) returns (r: Outcome<seq<Label>>)
    ensures r == Ok(db.labels)
  {
    r := Ok(db.labels);
  }

  /** The duplicate check of create_label: a label of `uid` titled `title`. */
  function ExistingLabel(labels: seq<Label>, uid: int, title: string): (r: Option<nat>)
    ensures r.Some? ==> r.value < |labels| && labels[r.value].userId == uid && labels[r.value].title == title
    ensures r.None? <==> forall k :: 0 <= k < |labels| ==> !(labels[k].userId == uid && labels[k].title == title)
  {
    FindIndex(labels, (l: Label) => l.userId == uid && l.title == title)
  }

  /** The duplicate check of update_label: a label of `uid` titled `title`
      whose title is not the renamed label's current one. */
  function ConflictingLabel(labels: seq<Label>, uid: int, title: string, current: string): (r: Option<nat>)
    ensures r.Some? ==> r.value < |labels| && labels[r.value].userId == uid && labels[r.value].title == title && title != current
    ensures r.None? <==> title == current || ExistingLabel(labels, uid, title).None?
  {
    FindIndex(labels, (l: Label) => l.userId == uid && l.title == title && l.title != current)
  }

  /** How the database answers the label insert. */
  function LabelInsertError(users: seq<User>, uid: int, fault: Fault): (e: Option<DbErr>)
    ensures e.None? ==> uid in UserIds(users)
  {
    if uid !in UserIds(users) then Some(ConstraintError(FOREIGN_KEY_FAILED))
    else Rejection(fault, Insert(LabelTable))
  }

  /** `create_label`: validation, the duplicate check, then the insert of a
      label owned by the caller. */
  method CreateLabel(db: Db, caller: User, payload: CreateLabelRequest, fault: Fault) returns (r: Outcome<Label>)
    requires db.Valid()
    modifies db
    ensures db.Valid()
    ensures !r.Ok? ==> unchanged(db)
    ensures db.nextUserId == old(db.nextUserId) && db.nextProfileId == old(db.nextProfileId)
    ensures db.nextTaskId == old(db.nextTaskId) && db.nextTaskLabelId == old(db.nextTaskLabelId)
    ensures ValidateCreateLabel(payload).Failed? ==> r == Err(Validation(ValidateCreateLabel(payload).errors))
    ensures ValidateCreateLabel(payload).Passed? ==>
      var l := Label(old(db.nextLabelId), payload.title, caller.id);
      if ExistingLabel(old(db.labels), caller.id, payload.title).Some? then r == Err(GenericError(LABEL_EXISTS))
      else if LabelInsertError(old(db.users), caller.id, fault).Some? then r == Err(SeaOrm(LabelInsertError(old(db.users), caller.id, fault).value))
      else
        && r == Ok(l)
        && db.labels == old(db.labels) + [l]
        && db.nextLabelId == old(db.nextLabelId) + 1
        && db.users == old(db.users) && db.profiles == old(db.profiles)
        && db.tasks == old(db.tasks) && db.taskLabels == old(db.taskLabels)
  {
    var checked := ValidateCreateLabel(payload);
    if checked.Failed? {
      return Err(Validation(checked.errors));
    }
    var existing := ExistingLabel(db.labels, caller.id, payload.title);
    if existing.Some? {
      return Err(GenericError(LABEL_EXISTS));
    }
    var e := LabelInsertError(db.users, caller.id, fault);
    if e.Some? {
      return Err(SeaOrm(e.value));
    }
    var created := Label(db.nextLabelId, payload.title, caller.id);
    AppendLabel(db, created);
    db.labels := db.labels + [created];
    db.nextLabelId := db.nextLabelId + 1;
    r := Ok(created);
  }

  /** `get_label`: the caller's label with that key, or "Label not found." */
  method GetLabel(db: Db, caller: User, id: int) returns (r: Outcome<Label>)
    ensures r.Ok? || r.Err?
    ensures r.Err? <==> forall k :: 0 <= k < |db.labels| ==> !(db.labels[k].userId == caller.id && db.labels[k].id == id)
    ensures r.Err? ==> r.error == NotFound
    ensures r.Ok? ==> r.value in db.labels && r.value.userId == caller.id && r.value.id == id
  {
    var found := OwnedLabelIndex(db.labels, caller.id, id);
    if found.None? {
      return Err(NotFound);
    }
    r := Ok(db.labels[found.value]);
  }

  /** `update_label`: validation, then the lookup among the caller's labels,
      then the duplicate check (a rename to the label's own title is no
      conflict), then the update of the title alone. */
  method UpdateLabel(db: Db, caller: User, id: int, payload: UpdateLabelRequest, fault: Fault) returns (r: Outcome<Label>)
    requires db.Valid()
    modifies db
    ensures db.Valid()
    ensures !r.Ok? ==> unchanged(db)
    ensures db.Counters() == old(db.Counters())
    ensures ValidateUpdateLabel(payload).Failed? ==> r == Err(Validation(ValidateUpdateLabel(payload).errors))
    ensures ValidateUpdateLabel(payload).Passed? ==>
      match OwnedLabelIndex(old(db.labels), caller.id, id)
      case None => r == Err(NotFound)
      case Some(i) =>
        var l := old(db.labels[i]).(title := payload.title);
        if ConflictingLabel(old(db.labels), caller.id, payload.title, old(db.labels[i].title)).Some? then r == Err(GenericError(LABEL_EXISTS))
        else if Rejection(fault, Update(LabelTable)).Some? then r == Err(SeaOrm(Rejection(fault, Update(LabelTable)).value))
        else
          && r == Ok(l)
          && db.labels == old(db.labels)[i := l]
          && db.users == old(db.users) && db.profiles == old(db.profiles)
          && db.tasks == old(db.tasks) && db.taskLabels == old(db.taskLabels)
  {
    var checked := ValidateUpdateLabel(payload);
    if checked.Failed? {
      return Err(Validation(checked.errors));
    }
    var found := OwnedLabelIndex(db.labels, caller.id, id);
    if found.None? {
      return Err(NotFound);
    }
    var i := found.value;
    var current := db.labels[i];
    var conflict := ConflictingLabel(db.labels, caller.id, payload.title, current.title);
    if conflict.Some? {
      return Err(GenericError(LABEL_EXISTS));
    }
    var e := Rejection(fault, Update(LabelTable));
    if e.Some? {
      return Err(SeaOrm(e.value));
    }
    var renamed := current.(title := payload.title);
    forall k | 0 <= k < |db.labels| && k != i
      ensures !(db.labels[k].userId == renamed.userId && db.labels[k].title == renamed.title)
    {
      if k < i {
        assert LabelBefore(db.labels[k], db.labels[i]);
      } else {
        assert LabelBefore(db.labels[i], db.labels[k]);
      }
    }
    ReplaceLabel(db, i, renamed);
    db.labels := db.labels[i := renamed];
    r := Ok(renamed);
  }

  /** The duplicate checks decide exactly what the unique index on (title,
      user) demands: after a successful create or rename the caller has
      exactly one label with that title. */
  lemma TitleStaysUnique(labels: seq<Label>, uid: int, title: string, l: Label)
    requires Pairwise(labels, LabelBefore) && l in labels && l.userId == uid && l.title == title
    ensures ExistingLabel(labels, uid, title).Some? && labels[ExistingLabel(labels, uid, title).value] == l
  {
    var i :| 0 <= i < |labels| && labels[i] == l;
  }

  /** `delete_label`: deletes the caller's label with that key; its join
      rows go with it. */
  method DeleteLabel(db: Db, caller: User, id: int, fault: Fault) returns (r: Outcome<string>)
    requires db.Valid()
    modifies db
    ensures db.Valid()
    ensures !r.Ok? ==> unchanged(db)
    ensures db.Counters() == old(db.Counters())
    ensures OwnedLabelIndex(old(db.labels), caller.id, id).None? ==> r == Err(NotFound)
    ensures OwnedLabelIndex(old(db.labels), caller.id, id).Some? ==>
      if Rejection(fault, Delete(LabelTable)).Some? then r == Err(SeaOrm(Rejection(fault, Delete(LabelTable)).value))
      else
        && r == Ok(LABEL_DELETED)
        && db.labels == WithoutLabel(old(db.labels), id)
        && db.taskLabels == JoinsAmong(old(db.taskLabels), old(db.tasks), db.labels)
        && db.users == old(db.users) && db.profiles == old(db.profiles) && db.tasks == old(db.tasks)
  {
    var found := OwnedLabelIndex(db.labels, caller.id, id);
    if found.None? {
      return Err(NotFound);
    }
    var e := Rejection(fault, Delete(LabelTable));
    if e.Some? {
      return Err(SeaOrm(e.value));
    }
    RemoveLabel(db, id);
    var labels := WithoutLabel(db.labels, id);
    db.Commit(db.users, db.profiles, db.tasks, labels, JoinsAmong(db.taskLabels, db.tasks, labels));
    r := Ok(LABEL_DELETED);
  }

  /** Deleting a label leaves every other label and every join row of other
      labels in place. */
  lemma DeleteLabelKeepsOthers(db: Db, id: int)
    requires db.Valid()
    ensures forall k :: 0 <= k < |db.labels| && db.labels[k].id != id ==> db.labels[k] in WithoutLabel(db.labels, id)
    ensures forall k :: 0 <= k < |db.taskLabels| && db.taskLabels[k].labelId != id ==>
      db.taskLabels[k] in JoinsAmong(db.taskLabels, db.tasks, WithoutLabel(db.labels, id))
    ensures forall k :: 0 <= k < |db.taskLabels| ==>
      db.taskLabels[k].labelId != id || db.taskLabels[k] !in JoinsAmong(db.taskLabels, db.tasks, WithoutLabel(db.labels, id))
  {
    var rest := WithoutLabel(db.labels, id);
    forall k | 0 <= k < |db.taskLabels| && db.taskLabels[k].labelId != id
      ensures db.taskLabels[k].labelId in LabelIds(rest)
    {
      assert JoinOk(db.taskLabels[k], db.tasks, db.labels);
      var w :| w in db.labels && w.id == db.taskLabels[k].labelId;
      var m :| 0 <= m < |db.labels| && db.labels[m] == w;
      assert w in rest;
    }
  }
}
