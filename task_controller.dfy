/** The task routes (src/controller/task_controller.rs). Every handler acts
    for the authenticated `caller` and finds tasks by uuid among the caller's
    own rows only. Write failures the tables do not explain come from the
    `fault` parameter; the uuid (`Uuid::new_v4`), the clock and the rendering
    of timestamps are parameters too. */
module TaskController {
  import opened Common
  import opened Errors
  import opened Entities
  import opened TaskForm
  import opened Serializer
  import opened Pagination
  import opened Store

  const TASK_NOT_FOUND := "Task not found."
  const TASK_DELETED := "Task deleted successfully"

  const NotFound: AppError := SeaOrm(RecordNotFound(TASK_NOT_FOUND))

  // -------------------------------------------------------------- get_tasks

  /** `.filter(task::Column::Status.eq(status))`. */
  function WhereStatus(tasks: seq<Task>, status: string): seq<Task> {
    Filter(tasks, (t: Task) => t.status == status)
  }

  /** A task the listing shows: the caller's, with the requested status if
      the query names one. */
  predicate TaskMatches(uid: int, params: map<string, string>, t: Task) {
    t.userId == uid && ("status" in params ==> t.status == params["status"])
  }

  function MatchingTasks(tasks: seq<Task>, uid: int, params: map<string, string>): (r: seq<Task>)
    ensures forall k :: 0 <= k < |r| ==> r[k] in tasks && TaskMatches(uid, params, r[k])
    ensures forall k :: 0 <= k < |tasks| && TaskMatches(uid, params, tasks[k]) ==> tasks[k] in r
  {
    Filter(tasks, (t: Task) => TaskMatches(uid, params, t))
  }

  /** The query of get_tasks, built as the handler builds it (the status
      filter only when the key is present), selects exactly the matching
      tasks in table order; without a status key it is all of the caller's
      tasks. */
  lemma {:induction false} TaskQueryMeaning(tasks: seq<Task>, uid: int, params: map<string, string>)
    ensures "status" in params ==> WhereStatus(TasksOf(tasks, uid), params["status"]) == MatchingTasks(tasks, uid, params)
    ensures "status" !in params ==> TasksOf(tasks, uid) == MatchingTasks(tasks, uid, params)
  {
    if tasks != [] {
      TaskQueryMeaning(tasks[1..], uid, params);
      var rest := TasksOf(tasks[1..], uid);
      if tasks[0].userId == uid && "status" in params {
        assert TasksOf(tasks, uid) == [tasks[0]] + rest;
        assert ([tasks[0]] + rest)[1..] == rest;
      }
    }
  }

  function CreatedAt(t: Task): int { t.dateCreated }

  /** `get_tasks`: the count and metadata of the matching tasks, then page
      `page - 1` of 10 of them ordered by creation time, newest first. Page
      0 underflows the subtraction. */
  method GetTasks(db: Db, caller: User, params: map<string, string>, uri: string, show: Timestamp -> string)
    returns (r: Outcome<Listing<TaskSerializer>>)
    ensures var matches := MatchingTasks(db.tasks, caller.id, params);
      match PageIndex(ParsePage(params))
      case None => r == Panic(SUBTRACT_OVERFLOW)
      case Some(index) =>
        r == Ok(Listing(ListMeta(|matches|, uri),
          SerializeTasks(FetchPage(SortDesc(matches, CreatedAt), PER_PAGE, index), show)))
  {
    var query := TasksOf(db.tasks, caller.id);
    if "status" in params {
      query := WhereStatus(query, params["status"]);
    }
    TaskQueryMeaning(db.tasks, caller.id, params);
    var page := ParsePage(params);
    var count := |query|;
    var meta := ListMeta(count, uri);
    var index := PageIndex(page);
    if index.None? {
      return Panic(SUBTRACT_OVERFLOW);
    }
    var rows := FetchPage(SortDesc(query, CreatedAt), PER_PAGE, index.value);
    r := Ok(Listing(meta, SerializeTasks(rows, show)));
  }

  /** What a page of the listing holds: at most 10 of the caller's tasks
      with the requested status, in descending creation order, taken at
      positions `10 * index` onwards of the ordered matches; past the last
      page it is empty. */
  lemma TaskPageContents(tasks: seq<Task>, uid: int, params: map<string, string>, index: nat)
    ensures var ordered := SortDesc(MatchingTasks(tasks, uid, params), CreatedAt);
      var page := FetchPage(ordered, PER_PAGE, index);
      && |page| <= PER_PAGE
      && (forall k :: 0 <= k < |page| ==> page[k] in tasks && TaskMatches(uid, params, page[k]))
      && SortedDesc(page, CreatedAt)
      && (page == [] <==> index >= DivCeil(|MatchingTasks(tasks, uid, params)|, PER_PAGE))
  {
    var matches := MatchingTasks(tasks, uid, params);
    var ordered := SortDesc(matches, CreatedAt);
    var page := FetchPage(ordered, PER_PAGE, index);
    SortDescCorrect(matches, CreatedAt);
    PastLastPageEmpty(ordered, PER_PAGE, index);
    PageOfSorted(ordered, CreatedAt, PER_PAGE, index);
    forall k | 0 <= k < |page| ensures page[k] in tasks && TaskMatches(uid, params, page[k]) {
      assert page[k] in multiset(matches);
    }
  }

  // ------------------------------------------------------------ create_task

  /** The row `task::ActiveModel { .. }.insert(txn)` creates: the submitted
      fields, the generated uuid, the caller as owner, the creation time from
      the column default and no update time. */
  function NewTask(payload: CreateTaskRequest, id: int, uuid: string, now: Timestamp, uid: int): Task {
    Task(id, payload.title, payload.description, payload.status, payload.priority,
      uuid, payload.dueDate, now, None, uid)
  }

  /** How the database answers the task insert, in SQLite's order: the
      status and then the priority CHECK, then the unique uuid, then the
      foreign key to the owner, otherwise the injected fault decides. */
  function TaskInsertError(tasks: seq<Task>, users: seq<User>, t: Task, fault: Fault): (e: Option<DbErr>)
    ensures e.None? ==> TaskColumnsOk(t)
    ensures e.None? ==> (forall k :: 0 <= k < |tasks| ==> tasks[k].uuid != t.uuid) && t.userId in UserIds(users)
    ensures e.None? ==> Rejection(fault, Insert(TaskTable)).None?
    ensures StatusCheckError(t.status).Some? ==> e == StatusCheckError(t.status)
    ensures StatusCheckError(t.status).None? && PriorityCheckError(t.priority).Some? ==> e == PriorityCheckError(t.priority)
  {
    if StatusCheckError(t.status).Some? then StatusCheckError(t.status)
    else if PriorityCheckError(t.priority).Some? then PriorityCheckError(t.priority)
    else if exists k :: 0 <= k < |tasks| && tasks[k].uuid == t.uuid then Some(ConstraintError(UNIQUE_TASK_UUID))
    else if t.userId !in UserIds(users) then Some(ConstraintError(FOREIGN_KEY_FAILED))
    else Rejection(fault, Insert(TaskTable))
  }

  /** `insert_many` of the join rows, skipped when there are none. */
  function JoinInsertError(rows: seq<TaskLabel>, fault: Fault): (e: Option<DbErr>)
    ensures rows == [] ==> e.None?
  {
    if rows == [] then None else Rejection(fault, InsertMany(TaskLabelTable))
  }

  /** `create_task`: validation, then one transaction that inserts the task
      and one join row per label of the caller whose title the payload
      lists. Any failure inside the transaction leaves the store as it was
      and is reported as `GenericError` with the error's text. */
  method CreateTask(db: Db, caller: User, payload: CreateTaskRequest, uuid: string, now: Timestamp, fault: Fault, show: Timestamp -> string)
    returns (r: Outcome<TaskSerializer>)
    requires db.Valid()
    modifies db
    ensures db.Valid()
    ensures !r.Ok? ==> unchanged(db)
    ensures ValidateCreateTask(payload).Failed? ==> r == Err(Validation(ValidateCreateTask(payload).errors))
    ensures var t := NewTask(payload, old(db.nextTaskId), uuid, now, caller.id);
      var owned := OwnedLabelsTitled(old(db.labels), caller.id, payload.labels);
      var rows := JoinRows(t.id, owned, old(db.nextTaskLabelId));
      var e := TaskInsertError(old(db.tasks), old(db.users), t, fault);
      ValidateCreateTask(payload).Passed? ==>
        if e.Some? then r == Err(GenericError(DbErrText(e.value)))
        else if JoinInsertError(rows, fault).Some? then r == Err(GenericError(DbErrText(JoinInsertError(rows, fault).value)))
        else
          && r == Ok(SerializeTask(t, show))
          && db.tasks == old(db.tasks) + [t]
          && db.taskLabels == old(db.taskLabels) + rows
          && db.nextTaskId == old(db.nextTaskId) + 1
          && db.nextTaskLabelId == old(db.nextTaskLabelId) + |rows|
          && db.users == old(db.users) && db.profiles == old(db.profiles) && db.labels == old(db.labels)
          && db.nextUserId == old(db.nextUserId) && db.nextProfileId == old(db.nextProfileId)
          && db.nextLabelId == old(db.nextLabelId)
  {
    var checked := ValidateCreateTask(payload);
    if checked.Failed? {
      return Err(Validation(checked.errors));
    }
    var task := NewTask(payload, db.nextTaskId, uuid, now, caller.id);
    var e := TaskInsertError(db.tasks, db.users, task, fault);
    if e.Some? {
      return Err(GenericError(DbErrText(e.value)));
    }
    var owned := OwnedLabelsTitled(db.labels, caller.id, payload.labels);
    var rows := JoinRows(task.id, owned, db.nextTaskLabelId);
    var e2 := JoinInsertError(rows, fault);
    if e2.Some? {
      return Err(GenericError(DbErrText(e2.value)));
    }
    AppendTask(db, task);
    AppendJoins(db.tasks + [task], db.labels, db.taskLabels, db.nextTaskLabelId, task, owned);
    db.tasks := db.tasks + [task];
    db.taskLabels := db.taskLabels + rows;
    db.nextTaskId := db.nextTaskId + 1;
    db.nextTaskLabelId := db.nextTaskLabelId + |rows|;
    r := Ok(SerializeTask(task, show));
  }

  /** After a successful create, the task's labels are exactly the caller's
      labels whose title was requested: titles the caller has no label for
      are ignored, and an empty list attaches nothing. */
  lemma CreatedTaskLabels(labels: seq<Label>, joins: seq<TaskLabel>, t: Task, titles: seq<string>, first: int)
    requires Pairwise(labels, LabelBefore)
    requires forall k :: 0 <= k < |joins| ==> joins[k].taskId != t.id
    ensures var owned := OwnedLabelsTitled(labels, t.userId, titles);
      RelatedLabels(joins + JoinRows(t.id, owned, first), labels, t.id) == owned
  {
    var owned := OwnedLabelsTitled(labels, t.userId, titles);
    RelatedLabelsAppend(joins, JoinRows(t.id, owned, first), labels, t.id);
    RelatedLabelsOtherTask(joins, labels, t.id);
    RelatedOfJoinRows(t.id, owned, first, labels);
  }

  // ------------------------------------------------------- get_task(_full)

  /** `get_task`: the caller's task with that uuid, or "Task not found." */
  method GetTask(db: Db, caller: User, uuid: string, show: Timestamp -> string) returns (r: Outcome<TaskSerializer>)
    ensures r.Ok? || r.Err?
    ensures r.Err? <==> forall k :: 0 <= k < |db.tasks| ==> !(db.tasks[k].userId == caller.id && db.tasks[k].uuid == uuid)
    ensures r.Err? ==> r.error == NotFound
    ensures r.Ok? ==> exists k :: 0 <= k < |db.tasks| && db.tasks[k].userId == caller.id && r.value == SerializeTask(db.tasks[k], show)
    ensures r.Ok? ==> r.value.uuid == uuid
  {
    var found := OwnedTaskIndex(db.tasks, caller.id, uuid);
    if found.None? {
      return Err(NotFound);
    }
    r := Ok(SerializeTask(db.tasks[found.value], show));
  }

  /** `get_task_full_details`: the caller's task with the labels its join
      rows point to. */
  method GetTaskFullDetails(db: Db, caller: User, uuid: string, show: Timestamp -> string) returns (r: Outcome<FullTaskSerializer>)
    ensures r.Ok? || r.Err?
    ensures r.Err? <==> OwnedTaskIndex(db.tasks, caller.id, uuid).None?
    ensures r.Err? ==> r.error == NotFound
    ensures r.Ok? ==> var t := db.tasks[OwnedTaskIndex(db.tasks, caller.id, uuid).value];
      && t.userId == caller.id && t.uuid == uuid
      && r.value == FullTaskSerializer(SerializeTask(t, show), SerializeLabels(RelatedLabels(db.taskLabels, db.labels, t.id)))
  {
    var found := OwnedTaskIndex(db.tasks, caller.id, uuid);
    if found.None? {
      return Err(NotFound);
    }
    var task := db.tasks[found.value];
    var labels := RelatedLabels(db.taskLabels, db.labels, task.id);
    r := Ok(FullTaskSerializer(SerializeTask(task, show), SerializeLabels(labels)));
  }

  // ------------------------------------------------------------ update_task

  /** `assigned_labels`: the titles of the task's labels that the payload lists. */
  function AssignedTitles(related: seq<Label>, requested: seq<string>): (r: seq<string>)
    ensures forall k :: 0 <= k < |r| ==> r[k] in requested
    ensures forall k :: 0 <= k < |related| && related[k].title in requested ==> related[k].title in r
    ensures forall k :: 0 <= k < |r| ==> exists m :: 0 <= m < |related| && related[m].title == r[k]
  {
    var listed := Filter(related, (l: Label) => l.title in requested);
    var r := Titles(listed);
    assert forall k :: 0 <= k < |r| ==> r[k] == listed[k].title && listed[k] in related;
    forall k | 0 <= k < |related| && related[k].title in requested ensures related[k].title in r {
      var m :| 0 <= m < |listed| && listed[m] == related[k];
      assert r[m] == related[k].title;
    }
    r
  }

  /** `unassigned_labels`: the requested titles not among the held ones. */
  function UnassignedTitles(requested: seq<string>, held: seq<string>): (r: seq<string>)
    ensures forall k :: 0 <= k < |r| ==> r[k] in requested && r[k] !in held
    ensures forall k :: 0 <= k < |requested| && requested[k] !in held ==> requested[k] in r
  {
    Filter(requested, (s: string) => s !in held)
  }

  /** The candidate query as the handler writes it: starting from the task's
      own labels and filtering on the TASK's title column. The condition
      does not mention the label, so the query returns every label of the
      task when the task's title is one of the unassigned titles, and
      nothing otherwise. */
  function CandidatesAsWritten(related: seq<Label>, t: Task, unassigned: seq<string>): (r: seq<Label>)
    ensures r == (if t.title in unassigned then related else [])
  {
    var p := (l: Label) => t.title in unassigned;
    if t.title in unassigned then FilterAll(related, p); Filter(related, p)
    else FilterNone(related, p); Filter(related, p)
  }

  /** The candidate query as intended: the caller's labels whose title was
      requested and is not yet held. */
  function CandidatesIntended(labels: seq<Label>, uid: int, unassigned: seq<string>): seq<Label> {
    OwnedLabelsTitled(labels, uid, unassigned)
  }

  /** The columns `update_task` writes: title, description (`unwrap`ped),
      status, and the due date only when one is supplied. */
  function UpdatedTask(t: Task, payload: UpdateTaskRequest, uid: int): Task
    requires payload.description.Some?
  {
    t.(title := payload.title, description := payload.description.value, status := payload.status,
       dueDate := if payload.dueDate.Some? then payload.dueDate else t.dueDate, userId := uid)
  }

  /** The transaction of `update_task` once the candidates are known:
      insert their join rows (if any), then write the task. A failure or the
      `unwrap` panic rolls the whole transaction back. */
  method CommitTaskUpdate(db: Db, i: nat, payload: UpdateTaskRequest, candidates: seq<Label>, fault: Fault, show: Timestamp -> string)
    returns (r: Outcome<TaskSerializer>)
    requires db.Valid()
    requires i < |db.tasks|
    requires forall k :: 0 <= k < |candidates| ==> candidates[k] in db.labels && candidates[k].userId == db.tasks[i].userId
    modifies db
    ensures db.Valid()
    ensures !r.Ok? ==> unchanged(db)
    ensures var t := old(db.tasks[i]);
      var rows := JoinRows(t.id, candidates, old(db.nextTaskLabelId));
      if JoinInsertError(rows, fault).Some? then r == Err(GenericError(DbErrText(JoinInsertError(rows, fault).value)))
      else if payload.description.None? then r == Panic(UNWRAP_NONE)
      else if StatusCheckError(payload.status).Some? then r == Err(GenericError(DbErrText(StatusCheckError(payload.status).value)))
      else if Rejection(fault, Update(TaskTable)).Some? then r == Err(GenericError(DbErrText(Rejection(fault, Update(TaskTable)).value)))
      else
        && r == Ok(SerializeTask(UpdatedTask(t, payload, t.userId), show))
        && db.tasks == old(db.tasks)[i := UpdatedTask(t, payload, t.userId)]
        && db.taskLabels == old(db.taskLabels) + rows
        && db.nextTaskLabelId == old(db.nextTaskLabelId) + |rows|
        && db.users == old(db.users) && db.profiles == old(db.profiles) && db.labels == old(db.labels)
        && db.nextUserId == old(db.nextUserId) && db.nextProfileId == old(db.nextProfileId)
        && db.nextTaskId == old(db.nextTaskId) && db.nextLabelId == old(db.nextLabelId)
  {
    var task := db.tasks[i];
    var rows := JoinRows(task.id, candidates, db.nextTaskLabelId);
    var e := JoinInsertError(rows, fault);
    if e.Some? {
      return Err(GenericError(DbErrText(e.value)));
    }
    if payload.description.None? {
      return Panic(UNWRAP_NONE);
    }
    var check := StatusCheckError(payload.status);
    if check.Some? {
      return Err(GenericError(DbErrText(check.value)));
    }
    var e2 := Rejection(fault, Update(TaskTable));
    if e2.Some? {
      return Err(GenericError(DbErrText(e2.value)));
    }
    var updated := UpdatedTask(task, payload, task.userId);
    AppendJoins(db.tasks, db.labels, db.taskLabels, db.nextTaskLabelId, task, candidates);
    db.taskLabels := db.taskLabels + rows;
    db.nextTaskLabelId := db.nextTaskLabelId + |rows|;
    ReplaceTask(db, i, updated);
    db.tasks := db.tasks[i := updated];
    r := Ok(SerializeTask(updated, show));
  }

  /** `update_task` as written: no validation; the candidate labels come from
      the query on the task's title (see `CandidatesAsWritten`). Join rows are
      only ever added. */
  method UpdateTask(db: Db, caller: User, uuid: string, payload: UpdateTaskRequest, fault: Fault, show: Timestamp -> string)
    returns (r: Outcome<TaskSerializer>)
    requires db.Valid()
    modifies db
    ensures db.Valid()
    ensures !r.Ok? ==> unchanged(db)
    ensures db.nextUserId == old(db.nextUserId) && db.nextProfileId == old(db.nextProfileId)
    ensures db.nextTaskId == old(db.nextTaskId) && db.nextLabelId == old(db.nextLabelId)
    ensures OwnedTaskIndex(old(db.tasks), caller.id, uuid).None? ==> r == Err(NotFound)
    ensures OwnedTaskIndex(old(db.tasks), caller.id, uuid).Some? ==>
      var i := OwnedTaskIndex(old(db.tasks), caller.id, uuid).value;
      var t := old(db.tasks[i]);
      var related := RelatedLabels(old(db.taskLabels), old(db.labels), t.id);
      var unassigned := UnassignedTitles(payload.labels, AssignedTitles(related, payload.labels));
      var rows := JoinRows(t.id, CandidatesAsWritten(related, t, unassigned), old(db.nextTaskLabelId));
      if JoinInsertError(rows, fault).Some? then r == Err(GenericError(DbErrText(JoinInsertError(rows, fault).value)))
      else if payload.description.None? then r == Panic(UNWRAP_NONE)
      else if StatusCheckError(payload.status).Some? then r == Err(GenericError(DbErrText(StatusCheckError(payload.status).value)))
      else if Rejection(fault, Update(TaskTable)).Some? then r == Err(GenericError(DbErrText(Rejection(fault, Update(TaskTable)).value)))
      else
        && r == Ok(SerializeTask(UpdatedTask(t, payload, caller.id), show))
        && db.tasks == old(db.tasks)[i := UpdatedTask(t, payload, caller.id)]
        && db.taskLabels == old(db.taskLabels) + rows
        && db.nextTaskLabelId == old(db.nextTaskLabelId) + |rows|
        && db.users == old(db.users) && db.profiles == old(db.profiles) && db.labels == old(db.labels)
  {
    var found := OwnedTaskIndex(db.tasks, caller.id, uuid);
    if found.None? {
      return Err(NotFound);
    }
    var task := db.tasks[found.value];
    var related := RelatedLabels(db.taskLabels, db.labels, task.id);
    var held := AssignedTitles(related, payload.labels);
    var unassigned := UnassignedTitles(payload.labels, held);
    var candidates := CandidatesAsWritten(related, task, unassigned);
    RelatedLabelsOwned(db, found.value);
    r := CommitTaskUpdate(db, found.value, payload, candidates, fault, show);
  }

  /** `update_task` with the candidate query the code evidently intends:
      the caller's own labels whose titles are requested and unassigned. */
  method UpdateTaskIntended(db: Db, caller: User, uuid: string, payload: UpdateTaskRequest, fault: Fault, show: Timestamp -> string)
    returns (r: Outcome<TaskSerializer>)
    requires db.Valid()
    modifies db
    ensures db.Valid()
    ensures !r.Ok? ==> unchanged(db)
    ensures db.nextUserId == old(db.nextUserId) && db.nextProfileId == old(db.nextProfileId)
    ensures db.nextTaskId == old(db.nextTaskId) && db.nextLabelId == old(db.nextLabelId)
    ensures OwnedTaskIndex(old(db.tasks), caller.id, uuid).None? ==> r == Err(NotFound)
    ensures OwnedTaskIndex(old(db.tasks), caller.id, uuid).Some? ==>
      var i := OwnedTaskIndex(old(db.tasks), caller.id, uuid).value;
      var t := old(db.tasks[i]);
      var related := RelatedLabels(old(db.taskLabels), old(db.labels), t.id);
      var unassigned := UnassignedTitles(payload.labels, AssignedTitles(related, payload.labels));
      var rows := JoinRows(t.id, CandidatesIntended(old(db.labels), caller.id, unassigned), old(db.nextTaskLabelId));
      if JoinInsertError(rows, fault).Some? then r == Err(GenericError(DbErrText(JoinInsertError(rows, fault).value)))
      else if payload.description.None? then r == Panic(UNWRAP_NONE)
      else if StatusCheckError(payload.status).Some? then r == Err(GenericError(DbErrText(StatusCheckError(payload.status).value)))
      else if Rejection(fault, Update(TaskTable)).Some? then r == Err(GenericError(DbErrText(Rejection(fault, Update(TaskTable)).value)))
      else
        && r == Ok(SerializeTask(UpdatedTask(t, payload, caller.id), show))
        && db.tasks == old(db.tasks)[i := UpdatedTask(t, payload, caller.id)]
        && db.taskLabels == old(db.taskLabels) + rows
        && db.nextTaskLabelId == old(db.nextTaskLabelId) + |rows|
        && db.users == old(db.users) && db.profiles == old(db.profiles) && db.labels == old(db.labels)
  {
    var found := OwnedTaskIndex(db.tasks, caller.id, uuid);
    if found.None? {
      return Err(NotFound);
    }
    var task := db.tasks[found.value];
    var related := RelatedLabels(db.taskLabels, db.labels, task.id);
    var held := AssignedTitles(related, payload.labels);
    var unassigned := UnassignedTitles(payload.labels, held);
    var candidates := CandidatesIntended(db.labels, caller.id, unassigned);
    r := CommitTaskUpdate(db, found.value, payload, candidates, fault, show);
  }

  /** The labels a task is associated with belong to the task's owner. */
  lemma RelatedLabelsOwned(db: Db, i: nat)
    requires db.Valid() && i < |db.tasks|
    ensures var related := RelatedLabels(db.taskLabels, db.labels, db.tasks[i].id);
      forall k :: 0 <= k < |related| ==> related[k] in db.labels && related[k].userId == db.tasks[i].userId
  {
    var t := db.tasks[i];
    var related := RelatedLabels(db.taskLabels, db.labels, t.id);
    forall k | 0 <= k < |related| ensures related[k].userId == t.userId {
      assert HasJoin(db.taskLabels, t.id, related[k].id);
      var j :| j in db.taskLabels && j.taskId == t.id && j.labelId == related[k].id;
      var m :| 0 <= m < |db.taskLabels| && db.taskLabels[m] == j;
      assert JoinOk(db.taskLabels[m], db.tasks, db.labels);
      assert t in db.tasks;
    }
  }

  /** As written, the label step never associates a label the task does not
      already have: every new join row repeats one of the task's labels. */
  lemma AsWrittenAddsNoNewLabel(related: seq<Label>, t: Task, unassigned: seq<string>)
    ensures forall k :: 0 <= k < |CandidatesAsWritten(related, t, unassigned)| ==>
      CandidatesAsWritten(related, t, unassigned)[k] in related
  {
  }

  /** A concrete run of the label step as written. The caller (user 7) owns
      "urgent" (label 1) and "new" (label 2); task 5, titled "report", has
      "urgent". Requesting ["urgent", "new"] attaches nothing, although
      "new" is requested and the caller's; requesting ["report"], the task's
      own title, re-attaches "urgent", whose join row then appears twice. */
  lemma AsWrittenCounterexample()
    ensures var labels := [Label(1, "urgent", 7), Label(2, "new", 7)];
      var joins := [TaskLabel(1, 5, 1)];
      var t := Task(5, "report", "", "pending", "high", "u-5", None, 0, None, 7);
      var related := RelatedLabels(joins, labels, t.id);
      && TaskColumnsOk(t)
      && related == [Label(1, "urgent", 7)]
      && CandidatesAsWritten(related, t, UnassignedTitles(["urgent", "new"], AssignedTitles(related, ["urgent", "new"]))) == []
      && CandidatesIntended(labels, 7, UnassignedTitles(["urgent", "new"], AssignedTitles(related, ["urgent", "new"]))) == [Label(2, "new", 7)]
      && CandidatesAsWritten(related, t, UnassignedTitles(["report"], AssignedTitles(related, ["report"]))) == [Label(1, "urgent", 7)]
  {
    var labels := [Label(1, "urgent", 7), Label(2, "new", 7)];
    var joins := [TaskLabel(1, 5, 1)];
    var t := Task(5, "report", "", "pending", "high", "u-5", None, 0, None, 7);
    assert LabelById(labels, 1) == Some(Label(1, "urgent", 7));
    assert RelatedLabels(joins[1..], labels, 5) == [];
    var related := RelatedLabels(joins, labels, t.id);
    assert related == [Label(1, "urgent", 7)];
    var held := AssignedTitles(related, ["urgent", "new"]);
    assert held == ["urgent"] by {
      assert "urgent" in ["urgent", "new"];
    }
    var unassigned := UnassignedTitles(["urgent", "new"], held);
    assert unassigned == ["new"] by {
      assert "urgent" in held;
      assert "new" != "urgent";
    }
    assert "report" !in unassigned;
    assert CandidatesIntended(labels, 7, unassigned) == [Label(2, "new", 7)] by {
      assert "urgent" !in unassigned;
    }
    var noneAssigned := AssignedTitles(related, ["report"]);
    assert noneAssigned == [] by {
      assert "urgent" !in ["report"];
    }
    assert UnassignedTitles(["report"], noneAssigned) == ["report"];
  }

  /** With the intended candidates, after the label step every label of the
      task's owner whose title was requested is associated with the task,
      and no new join row repeats a label the task already had. */
  lemma IntendedAttachesRequested(db: Db, i: nat, requested: seq<string>, l: Label)
    requires db.Valid() && i < |db.tasks|
    requires l in db.labels && l.userId == db.tasks[i].userId && l.title in requested
    ensures var t := db.tasks[i];
      var related := RelatedLabels(db.taskLabels, db.labels, t.id);
      var unassigned := UnassignedTitles(requested, AssignedTitles(related, requested));
      var candidates := CandidatesIntended(db.labels, t.userId, unassigned);
      && l in RelatedLabels(db.taskLabels + JoinRows(t.id, candidates, db.nextTaskLabelId), db.labels, t.id)
      && (forall k :: 0 <= k < |candidates| ==> candidates[k] !in related)
  {
    var t := db.tasks[i];
    var related := RelatedLabels(db.taskLabels, db.labels, t.id);
    var held := AssignedTitles(related, requested);
    var unassigned := UnassignedTitles(requested, held);
    var candidates := CandidatesIntended(db.labels, t.userId, unassigned);
    RelatedLabelsAppend(db.taskLabels, JoinRows(t.id, candidates, db.nextTaskLabelId), db.labels, t.id);
    RelatedOfJoinRows(t.id, candidates, db.nextTaskLabelId, db.labels);
    RelatedLabelsOwned(db, i);
    if l.title in held {
      var m :| 0 <= m < |related| && related[m].title == l.title;
      SameTitleSameLabel(db.labels, related[m], l);
    } else {
      var a :| 0 <= a < |requested| && requested[a] == l.title;
      var b :| 0 <= b < |db.labels| && db.labels[b] == l;
    }
    assert forall k :: 0 <= k < |candidates| ==> candidates[k] !in related;
  }

  /** A user has at most one label with a given title. */
  lemma SameTitleSameLabel(labels: seq<Label>, a: Label, b: Label)
    requires Pairwise(labels, LabelBefore) && a in labels && b in labels
    requires a.title == b.title && a.userId == b.userId
    ensures a == b
  {
    var i :| 0 <= i < |labels| && labels[i] == a;
    var j :| 0 <= j < |labels| && labels[j] == b;
  }

  // ------------------------------------------------------- delete / status

  /** `delete_task`: deletes the caller's task with that uuid; the join rows
      of the task go with it. */
  method DeleteTask(db: Db, caller: User, uuid: string, fault: Fault) returns (r: Outcome<string>)
    requires db.Valid()
    modifies db
    ensures db.Valid()
    ensures !r.Ok? ==> unchanged(db)
    ensures db.Counters() == old(db.Counters())
    ensures OwnedTaskIndex(old(db.tasks), caller.id, uuid).None? ==> r == Err(NotFound)
    ensures OwnedTaskIndex(old(db.tasks), caller.id, uuid).Some? ==>
      var t := old(db.tasks[OwnedTaskIndex(db.tasks, caller.id, uuid).value]);
      if Rejection(fault, Delete(TaskTable)).Some? then r == Err(SeaOrm(Rejection(fault, Delete(TaskTable)).value))
      else
        && r == Ok(TASK_DELETED)
        && db.tasks == WithoutTask(old(db.tasks), t.id)
        && db.taskLabels == JoinsAmong(old(db.taskLabels), db.tasks, old(db.labels))
        && db.users == old(db.users) && db.profiles == old(db.profiles) && db.labels == old(db.labels)
  {
    var found := OwnedTaskIndex(db.tasks, caller.id, uuid);
    if found.None? {
      return Err(NotFound);
    }
    var task := db.tasks[found.value];
    var e := Rejection(fault, Delete(TaskTable));
    if e.Some? {
      return Err(SeaOrm(e.value));
    }
    RemoveTask(db, task.id);
    db.tasks := WithoutTask(db.tasks, task.id);
    db.taskLabels := JoinsAmong(db.taskLabels, db.tasks, db.labels);
    r := Ok(TASK_DELETED);
  }

  /** Deleting removes exactly the found task and exactly its join rows. */
  lemma DeleteTaskRemovesOnlyIt(tasks: seq<Task>, labels: seq<Label>, joins: seq<TaskLabel>, n: int, nj: int, t: Task)
    requires Pairwise(tasks, TaskBefore) && t in tasks && JoinsOk(joins, tasks, labels, nj)
    ensures |WithoutTask(tasks, t.id)| == |tasks| - 1
    ensures forall k :: 0 <= k < |joins| ==>
      (joins[k] in JoinsAmong(joins, WithoutTask(tasks, t.id), labels) <==> joins[k].taskId != t.id)
  {
    var rest := WithoutTask(tasks, t.id);
    var i :| 0 <= i < |tasks| && tasks[i] == t;
    FilterSplit(tasks, i, (x: Task) => x.id != t.id);
    forall k | 0 <= k < |joins| ensures joins[k] in JoinsAmong(joins, rest, labels) <==> joins[k].taskId != t.id {
      var j := joins[k];
      assert JoinOk(j, tasks, labels);
      if j.taskId != t.id {
        var w :| w in tasks && w.id == j.taskId;
        var m :| 0 <= m < |tasks| && tasks[m] == w;
        assert w in rest;
      }
    }
  }

  /** With unique keys, removing the one row with a key shortens a table by one. */
  lemma FilterSplit(tasks: seq<Task>, i: nat, p: Task -> bool)
    requires Pairwise(tasks, TaskBefore) && i < |tasks|
    requires forall k :: 0 <= k < |tasks| ==> (p(tasks[k]) <==> tasks[k].id != tasks[i].id)
    ensures |Filter(tasks, p)| == |tasks| - 1
  {
    var pre, post := tasks[..i], tasks[i + 1..];
    assert tasks == pre + [tasks[i]] + post;
    FilterAppend(pre + [tasks[i]], post, p);
    FilterAppend(pre, [tasks[i]], p);
    forall k | 0 <= k < |pre| ensures p(pre[k]) {
      assert pre[k] == tasks[k];
      assert TaskBefore(tasks[k], tasks[i]);
    }
    FilterAll(pre, p);
    forall k | 0 <= k < |post| ensures p(post[k]) {
      assert post[k] == tasks[i + 1 + k];
      assert TaskBefore(tasks[i], tasks[i + 1 + k]);
    }
    FilterAll(post, p);
    assert Filter([tasks[i]], p) == [];
  }

  /** `update_task_status` and `update_task_priority`: write one column of
      the caller's task, without validating the payload. */
  method UpdateTaskStatus(db: Db, caller: User, uuid: string, payload: UpdateTaskStatusRequest, fault: Fault, show: Timestamp -> string)
    returns (r: Outcome<TaskSerializer>)
    requires db.Valid()
    modifies db
    ensures db.Valid()
    ensures !r.Ok? ==> unchanged(db)
    ensures db.Counters() == old(db.Counters())
    ensures OwnedTaskIndex(old(db.tasks), caller.id, uuid).None? ==> r == Err(NotFound)
    ensures ValidateUpdateTaskStatus(payload).Failed? ==> !r.Ok?
    ensures r.Ok? ==> r.value.status == payload.status && StatusCheckError(payload.status).None?
    ensures OwnedTaskIndex(old(db.tasks), caller.id, uuid).Some? ==>
      var i := OwnedTaskIndex(old(db.tasks), caller.id, uuid).value;
      var t := old(db.tasks[i]).(status := payload.status);
      if StatusCheckError(payload.status).Some? then r == Err(SeaOrm(StatusCheckError(payload.status).value))
      else if Rejection(fault, Update(TaskTable)).Some? then r == Err(SeaOrm(Rejection(fault, Update(TaskTable)).value))
      else
        && r == Ok(SerializeTask(t, show))
        && db.tasks == old(db.tasks)[i := t]
        && db.taskLabels == old(db.taskLabels) && db.users == old(db.users)
        && db.profiles == old(db.profiles) && db.labels == old(db.labels)
  {
    var found := OwnedTaskIndex(db.tasks, caller.id, uuid);
    if found.None? {
      return Err(NotFound);
    }
    var task := db.tasks[found.value].(status := payload.status);
    var check := StatusCheckError(payload.status);
    if check.Some? {
      return Err(SeaOrm(check.value));
    }
    var e := Rejection(fault, Update(TaskTable));
    if e.Some? {
      return Err(SeaOrm(e.value));
    }
    ReplaceTask(db, found.value, task);
    db.tasks := db.tasks[found.value := task];
    r := Ok(SerializeTask(task, show));
  }

  method UpdateTaskPriority(db: Db, caller: User, uuid: string, payload: UpdateTaskPriorityRequest, fault: Fault, show: Timestamp -> string)
    returns (r: Outcome<TaskSerializer>)
    requires db.Valid()
    modifies db
    ensures db.Valid()
    ensures !r.Ok? ==> unchanged(db)
    ensures db.Counters() == old(db.Counters())
    ensures OwnedTaskIndex(old(db.tasks), caller.id, uuid).None? ==> r == Err(NotFound)
    ensures ValidateUpdateTaskPriority(payload).Failed? ==> !r.Ok?
    ensures r.Ok? ==> r.value.priority == payload.priority && PriorityCheckError(payload.priority).None?
    ensures OwnedTaskIndex(old(db.tasks), caller.id, uuid).Some? ==>
      var i := OwnedTaskIndex(old(db.tasks), caller.id, uuid).value;
      var t := old(db.tasks[i]).(priority := payload.priority);
      if PriorityCheckError(payload.priority).Some? then r == Err(SeaOrm(PriorityCheckError(payload.priority).value))
      else if Rejection(fault, Update(TaskTable)).Some? then r == Err(SeaOrm(Rejection(fault, Update(TaskTable)).value))
      else
        && r == Ok(SerializeTask(t, show))
        && db.tasks == old(db.tasks)[i := t]
        && db.taskLabels == old(db.taskLabels) && db.users == old(db.users)
        && db.profiles == old(db.profiles) && db.labels == old(db.labels)
  {
    var found := OwnedTaskIndex(db.tasks, caller.id, uuid);
    if found.None? {
      return Err(NotFound);
    }
    var task := db.tasks[found.value].(priority := payload.priority);
    var check := PriorityCheckError(payload.priority);
    if check.Some? {
      return Err(SeaOrm(check.value));
    }
    var e := Rejection(fault, Update(TaskTable));
    if e.Some? {
      return Err(SeaOrm(e.value));
    }
    ReplaceTask(db, found.value, task);
    db.tasks := db.tasks[found.value := task];
    r := Ok(SerializeTask(task, show));
  }
}
