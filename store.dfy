/** The relational store behind `app_state.db`: five tables held in table
    order, the auto-increment counters of their keys, and the constraints the
    migrations declare (unique `task.uuid`, unique label `(title, user_id)`,
    the CHECKs on a task's status and priority, foreign keys from profiles,
    tasks and labels to users and from join rows to tasks and labels). Every key is below its table's counter and keys
    increase in table order, as auto-increment keys do.

    The queries the handlers build with sea-orm are functions on the
    tables: `find_related` through a foreign key is a filter, the
    task-to-label relation goes through the join table, `.one()` yields the
    first match and `find_also_related` is a LEFT JOIN. */
module Store {
  import opened Common
  import opened Errors
  import opened Entities

  datatype Table = UserTable | ProfileTable | TaskTable | LabelTable | TaskLabelTable

  /** One write statement of a handler. */
  datatype Statement = Insert(table: Table) | InsertMany(table: Table) | Update(table: Table) | Delete(table: Table)

  /** The write statement the database rejects during a request, if any, and
      the error it reports (a lost connection, a lock):
      the failures the model does not derive from the tables themselves. */
  datatype Fault = NoFault | Reject(statement: Statement, error: DbErr)

  function Rejection(fault: Fault, s: Statement): (r: Option<DbErr>)
    ensures r.Some? <==> fault.Reject? && fault.statement == s
    ensures r.Some? ==> r.value == fault.error
  {
    if fault.Reject? && fault.statement == s then Some(fault.error) else None
  }

  const UNIQUE_TASK_UUID := "UNIQUE constraint failed: task.uuid"
  const FOREIGN_KEY_FAILED := "FOREIGN KEY constraint failed"

  /** The values the CHECK constraints of the task table admit: the variants
      of the status and priority enumerations after their `Table` identifier,
      rendered in snake case. */
  const TASK_STATUSES: seq<string> := ["pending", "in_progress", "completed"]
  const TASK_PRIORITIES: seq<string> := ["low", "medium", "high"]
  const CHECK_STATUS_FAILED := "CHECK constraint failed: \"status\" IN ('pending', 'in_progress', 'completed')"
  const CHECK_PRIORITY_FAILED := "CHECK constraint failed: \"priority\" IN ('low', 'medium', 'high')"

  /** A constraint violation as sqlx reports it, which the error mapping
      turns into a 400 carrying the database's message. */
  function ConstraintError(message: string): (e: DbErr)
    ensures IntoResponse(SeaOrm(e)) == Reply(BAD_REQUEST, message)
  {
    Exec(SqlxError(Database(message)))
  }

  /** The status CHECK, which any insert and any update writing `status` meets. */
  function StatusCheckError(status: string): (e: Option<DbErr>)
    ensures e.None? <==> status in TASK_STATUSES
    ensures e.Some? ==> e.value == ConstraintError(CHECK_STATUS_FAILED)
  {
    if status in TASK_STATUSES then None else Some(ConstraintError(CHECK_STATUS_FAILED))
  }

  /** The priority CHECK, which any insert and any update writing `priority` meets. */
  function PriorityCheckError(priority: string): (e: Option<DbErr>)
    ensures e.None? <==> priority in TASK_PRIORITIES
    ensures e.Some? ==> e.value == ConstraintError(CHECK_PRIORITY_FAILED)
  {
    if priority in TASK_PRIORITIES then None else Some(ConstraintError(CHECK_PRIORITY_FAILED))
  }

  /** Every admitted status and priority has at least three characters, so a
      value the `length(min = 3)` form rule rejects never passes the CHECK. */
  lemma ShortValuesFailCheck(s: string)
    requires |s| < 3
    ensures StatusCheckError(s).Some? && PriorityCheckError(s).Some?
  {
  }

  // ------------------------------------------------------------ constraints

  /** A task row the CHECK constraints admit. */
  predicate TaskColumnsOk(t: Task) {
    t.status in TASK_STATUSES && t.priority in TASK_PRIORITIES
  }

  predicate UserBefore(a: User, b: User) { a.id < b.id }
  predicate ProfileBefore(a: UserProfile, b: UserProfile) { a.id < b.id }
  /** Keys increase and uuids are unique. */
  predicate TaskBefore(a: Task, b: Task) { a.id < b.id && a.uuid != b.uuid }
  /** Keys increase and no user owns two labels with one title. */
  predicate LabelBefore(a: Label, b: Label) { a.id < b.id && (a.title != b.title || a.userId != b.userId) }
  predicate JoinBefore(a: TaskLabel, b: TaskLabel) { a.id < b.id }

  ghost predicate UsersOk(users: seq<User>, next: int) {
    Pairwise(users, UserBefore) && forall k :: 0 <= k < |users| ==> users[k].id < next
  }

  ghost predicate ProfilesOk(profiles: seq<UserProfile>, users: seq<User>, next: int) {
    Pairwise(profiles, ProfileBefore)
    && forall k :: 0 <= k < |profiles| ==> profiles[k].id < next && profiles[k].userId in UserIds(users)
  }

  ghost predicate TasksOk(tasks: seq<Task>, users: seq<User>, next: int) {
    Pairwise(tasks, TaskBefore)
    && forall k :: 0 <= k < |tasks| ==> tasks[k].id < next && tasks[k].userId in UserIds(users) && TaskColumnsOk(tasks[k])
  }

  ghost predicate LabelsOk(labels: seq<Label>, users: seq<User>, next: int) {
    Pairwise(labels, LabelBefore)
    && forall k :: 0 <= k < |labels| ==> labels[k].id < next && labels[k].userId in UserIds(users)
  }

  /** A join row refers to an existing task and an existing label of the
      same owner: the handlers only ever associate a task with its owner's
      labels. */
  ghost predicate JoinOk(j: TaskLabel, tasks: seq<Task>, labels: seq<Label>) {
    j.taskId in TaskIds(tasks) && j.labelId in LabelIds(labels)
    && forall t, l :: t in tasks && l in labels && t.id == j.taskId && l.id == j.labelId ==> t.userId == l.userId
  }

  ghost predicate JoinsOk(joins: seq<TaskLabel>, tasks: seq<Task>, labels: seq<Label>, next: int) {
    Pairwise(joins, JoinBefore)
    && forall k :: 0 <= k < |joins| ==> joins[k].id < next && JoinOk(joins[k], tasks, labels)
  }

  /** The constraints of the schema over a whole set of table contents and
      key counters. */
  ghost predicate TablesOk(users: seq<User>, profiles: seq<UserProfile>, tasks: seq<Task>, labels: seq<Label>,
                           joins: seq<TaskLabel>, nu: int, np: int, nt: int, nl: int, nj: int) {
    UsersOk(users, nu)
    && ProfilesOk(profiles, users, np)
    && TasksOk(tasks, users, nt)
    && LabelsOk(labels, users, nl)
    && JoinsOk(joins, tasks, labels, nj)
  }

  class Db {
    var users: seq<User>
    var profiles: seq<UserProfile>
    var tasks: seq<Task>
    var labels: seq<Label>
    var taskLabels: seq<TaskLabel>
    var nextUserId: int
    var nextProfileId: int
    var nextTaskId: int
    var nextLabelId: int
    var nextTaskLabelId: int

    /** The constraints of the schema hold. */
    ghost predicate Valid()
      reads this
    {
      TablesOk(users, profiles, tasks, labels, taskLabels,
        nextUserId, nextProfileId, nextTaskId, nextLabelId, nextTaskLabelId)
    }

    /** The five key counters, in table order: users, profiles, tasks,
        labels, join rows. */
    function Counters(): (int, int, int, int, int)
      reads this
    {
      (nextUserId, nextProfileId, nextTaskId, nextLabelId, nextTaskLabelId)
    }

    /** A freshly migrated database: every table empty, every key starting at 1. */
    constructor()
      ensures Valid()
      ensures users == [] && profiles == [] && tasks == [] && labels == [] && taskLabels == []
      ensures nextUserId == 1 && nextProfileId == 1 && nextTaskId == 1 && nextLabelId == 1 && nextTaskLabelId == 1
    {
      users, profiles, tasks, labels, taskLabels := [], [], [], [], [];
      nextUserId, nextProfileId, nextTaskId, nextLabelId, nextTaskLabelId := 1, 1, 1, 1, 1;
    }

    /** Replaces the contents of every table at once, keeping the key
        counters; the new contents must satisfy the schema. */
    method Commit(users': seq<User>, profiles': seq<UserProfile>, tasks': seq<Task>, labels': seq<Label>, joins': seq<TaskLabel>)
      requires TablesOk(users', profiles', tasks', labels', joins',
        nextUserId, nextProfileId, nextTaskId, nextLabelId, nextTaskLabelId)
      modifies this
      ensures Valid()
      ensures users == users' && profiles == profiles' && tasks == tasks' && labels == labels' && taskLabels == joins'
      ensures nextUserId == old(nextUserId) && nextProfileId == old(nextProfileId) && nextTaskId == old(nextTaskId)
      ensures nextLabelId == old(nextLabelId) && nextTaskLabelId == old(nextTaskLabelId)
    {
      users, profiles, tasks, labels, taskLabels := users', profiles', tasks', labels', joins';
    }
  }

  // ---------------------------------------------------------------- lookups

  /** `user::Entity::find_by_id(id).one()`. */
  function UserIndex(users: seq<User>, id: int): (r: Option<nat>)
    ensures r.Some? ==> r.value < |users| && users[r.value].id == id
    ensures r.None? <==> forall k :: 0 <= k < |users| ==> users[k].id != id
  {
    FindIndex(users, (u: User) => u.id == id)
  }

  /** `user.find_related(task).filter(uuid = ..).one()`: the first task with
      that uuid among the caller's own tasks. */
  function OwnedTaskIndex(tasks: seq<Task>, uid: int, uuid: string): (r: Option<nat>)
    ensures r.Some? ==> r.value < |tasks| && tasks[r.value].userId == uid && tasks[r.value].uuid == uuid
    ensures r.None? <==> forall k :: 0 <= k < |tasks| ==> !(tasks[k].userId == uid && tasks[k].uuid == uuid)
  {
    FindIndex(tasks, (t: Task) => t.userId == uid && t.uuid == uuid)
  }

  /** `user.find_related(label).filter(id = ..).one()`. */
  function OwnedLabelIndex(labels: seq<Label>, uid: int, id: int): (r: Option<nat>)
    ensures r.Some? ==> r.value < |labels| && labels[r.value].userId == uid && labels[r.value].id == id
    ensures r.None? <==> forall k :: 0 <= k < |labels| ==> !(labels[k].userId == uid && labels[k].id == id)
  {
    FindIndex(labels, (l: Label) => l.userId == uid && l.id == id)
  }

  /** `user.find_related(task)`: the caller's tasks in table order. */
  function TasksOf(tasks: seq<Task>, uid: int): (r: seq<Task>)
    ensures forall k :: 0 <= k < |r| ==> r[k] in tasks && r[k].userId == uid
    ensures forall k :: 0 <= k < |tasks| && tasks[k].userId == uid ==> tasks[k] in r
  {
    Filter(tasks, (t: Task) => t.userId == uid)
  }

  /** `user.find_related(label).filter(title.is_in(titles))`: the caller's
      labels whose title is listed; an empty list matches nothing. */
  function OwnedLabelsTitled(labels: seq<Label>, uid: int, titles: seq<string>): (r: seq<Label>)
    ensures forall k :: 0 <= k < |r| ==> r[k] in labels && r[k].userId == uid && r[k].title in titles
    ensures forall k :: 0 <= k < |labels| && labels[k].userId == uid && labels[k].title in titles ==> labels[k] in r
    ensures titles == [] ==> r == []
  {
    var p := (l: Label) => l.userId == uid && l.title in titles;
    if titles == [] then FilterNone(labels, p); Filter(labels, p) else Filter(labels, p)
  }

  /** The label a join row points to. */
  function LabelById(labels: seq<Label>, id: int): (r: Option<Label>)
    ensures r.Some? ==> r.value in labels && r.value.id == id
    ensures r.None? <==> id !in LabelIds(labels)
  {
    FindFirst(labels, (l: Label) => l.id == id)
  }

  function LabelRow(labels: seq<Label>, id: int): seq<Label> {
    match LabelById(labels, id)
    case None => []
    case Some(l) => [l]
  }

  /** `task.find_related(label)`: through the join table, the label of each
      join row of the task, one result per join row. */
  function RelatedLabels(joins: seq<TaskLabel>, labels: seq<Label>, tid: int): (r: seq<Label>)
    ensures forall k :: 0 <= k < |r| ==> r[k] in labels && HasJoin(joins, tid, r[k].id)
  {
    if joins == [] then []
    else
      (if joins[0].taskId == tid then LabelRow(labels, joins[0].labelId) else [])
      + RelatedLabels(joins[1..], labels, tid)
  }

  ghost predicate HasJoin(joins: seq<TaskLabel>, tid: int, lid: int) {
    exists j :: j in joins && j.taskId == tid && j.labelId == lid
  }

  /** Every join row of the task contributes its label. */
  lemma {:induction false} RelatedLabelsComplete(joins: seq<TaskLabel>, labels: seq<Label>, tid: int, j: TaskLabel)
    requires j in joins && j.taskId == tid && j.labelId in LabelIds(labels)
    ensures LabelById(labels, j.labelId).value in RelatedLabels(joins, labels, tid)
  {
    if joins[0] != j {
      RelatedLabelsComplete(joins[1..], labels, tid, j);
    }
  }

  lemma {:induction false} RelatedLabelsAppend(a: seq<TaskLabel>, b: seq<TaskLabel>, labels: seq<Label>, tid: int)
    ensures RelatedLabels(a + b, labels, tid) == RelatedLabels(a, labels, tid) + RelatedLabels(b, labels, tid)
  {
    if a == [] {
      assert a + b == b;
    } else {
      assert (a + b)[0] == a[0];
      assert (a + b)[1..] == a[1..] + b;
      RelatedLabelsAppend(a[1..], b, labels, tid);
    }
  }

  /** Join rows of other tasks contribute nothing. */
  lemma {:induction false} RelatedLabelsOtherTask(joins: seq<TaskLabel>, labels: seq<Label>, tid: int)
    requires forall k :: 0 <= k < |joins| ==> joins[k].taskId != tid
    ensures RelatedLabels(joins, labels, tid) == []
  {
    if joins != [] {
      RelatedLabelsOtherTask(joins[1..], labels, tid);
    }
  }

  /** One new join row per label, keys counting up from `first`. */
  function JoinRows(tid: int, ls: seq<Label>, first: int): (r: seq<TaskLabel>)
    ensures |r| == |ls|
    ensures forall k :: 0 <= k < |r| ==> r[k] == TaskLabel(first + k, tid, ls[k].id)
  {
    seq(|ls|, k requires 0 <= k < |ls| => TaskLabel(first + k, tid, ls[k].id))
  }

  /** With unique label keys, a label of the table is what its key finds. */
  lemma LabelByIdMember(labels: seq<Label>, l: Label)
    requires Pairwise(labels, LabelBefore) && l in labels
    ensures LabelById(labels, l.id) == Some(l)
  {
    var i :| 0 <= i < |labels| && labels[i] == l;
    var r := FindIndex(labels, (x: Label) => x.id == l.id);
    assert r.Some?;
  }

  /** The labels new join rows associate are exactly the labels they were
      made from. */
  lemma {:induction false} RelatedOfJoinRows(tid: int, ls: seq<Label>, first: int, labels: seq<Label>)
    requires Pairwise(labels, LabelBefore)
    requires forall k :: 0 <= k < |ls| ==> ls[k] in labels
    ensures RelatedLabels(JoinRows(tid, ls, first), labels, tid) == ls
  {
    var rows := JoinRows(tid, ls, first);
    if ls != [] {
      assert rows[0] == TaskLabel(first, tid, ls[0].id);
      assert rows[1..] == JoinRows(tid, ls[1..], first + 1);
      LabelByIdMember(labels, ls[0]);
      RelatedOfJoinRows(tid, ls[1..], first + 1, labels);
      assert ls == [ls[0]] + ls[1..];
    }
  }

  // -------------------------------------------------- users with profiles

  /** The profiles of one user, in table order. */
  function ProfilesOf(profiles: seq<UserProfile>, uid: int): (r: seq<UserProfile>)
    ensures forall k :: 0 <= k < |r| ==> r[k] in profiles && r[k].userId == uid
    ensures forall k :: 0 <= k < |profiles| && profiles[k].userId == uid ==> profiles[k] in r
  {
    Filter(profiles, (p: UserProfile) => p.userId == uid)
  }

  /** The LEFT JOIN rows of one user: one per profile, or one without. */
  function JoinedRows(u: User, profiles: seq<UserProfile>): (r: seq<(User, Option<UserProfile>)>)
    ensures |r| >= 1
    ensures forall k :: 0 <= k < |r| ==> r[k].0 == u
    ensures forall k :: 0 <= k < |r| && r[k].1.Some? ==> r[k].1.value in profiles && r[k].1.value.userId == u.id
    ensures forall k :: 0 <= k < |r| && r[k].1.None? ==> ProfilesOf(profiles, u.id) == []
  {
    var ps := ProfilesOf(profiles, u.id);
    if ps == [] then [(u, None)]
    else seq(|ps|, k requires 0 <= k < |ps| => (u, Some(ps[k])))
  }

  /** `user::Entity::find().find_also_related(user_profile::Entity)`. */
  function WithProfiles(users: seq<User>, profiles: seq<UserProfile>): (r: seq<(User, Option<UserProfile>)>)
    ensures |r| >= |users|
    ensures forall k :: 0 <= k < |r| ==> r[k].0 in users
  {
    if users == [] then []
    else JoinedRows(users[0], profiles) + WithProfiles(users[1..], profiles)
  }

  /** The join keeps the users' order and filters on user columns commute
      with it: filtering the joined rows on a user predicate is joining the
      filtered users. */
  lemma {:induction false} WithProfilesFilter(users: seq<User>, profiles: seq<UserProfile>, p: User -> bool, q: ((User, Option<UserProfile>)) -> bool)
    requires forall row :: q(row) == p(row.0)
    ensures Filter(WithProfiles(users, profiles), q) == WithProfiles(Filter(users, p), profiles)
  {
    if users != [] {
      var head := JoinedRows(users[0], profiles);
      FilterAppend(head, WithProfiles(users[1..], profiles), q);
      WithProfilesFilter(users[1..], profiles, p, q);
      if p(users[0]) {
        FilterAll(head, q);
      } else {
        FilterNone(head, q);
      }
    }
  }

  /** The first LEFT JOIN row of a user: the user with its first profile. */
  function FirstProfile(profiles: seq<UserProfile>, uid: int): (r: Option<UserProfile>)
    ensures r.Some? ==> r.value in profiles && r.value.userId == uid
    ensures r.None? <==> forall k :: 0 <= k < |profiles| ==> profiles[k].userId != uid
  {
    var ps := ProfilesOf(profiles, uid);
    if ps == [] then None else Some(ps[0])
  }

  function IsUser(id: int): ((User, Option<UserProfile>)) -> bool {
    (row: (User, Option<UserProfile>)) => row.0.id == id
  }

  /** `find_by_id(id).find_also_related(user_profile).one()` finds nothing
      when no user has that key. */
  lemma UserRowAbsent(users: seq<User>, profiles: seq<UserProfile>, id: int)
    requires UserIndex(users, id).None?
    ensures FindFirst(WithProfiles(users, profiles), IsUser(id)).None?
  {
    var rows := WithProfiles(users, profiles);
    forall k | 0 <= k < |rows| ensures !IsUser(id)(rows[k]) {
      var m :| 0 <= m < |users| && users[m] == rows[k].0;
    }
  }

  /** ... and otherwise the user with that key together with its first
      profile. */
  lemma {:induction false} UserRowPresent(users: seq<User>, profiles: seq<UserProfile>, i: nat)
    requires Pairwise(users, UserBefore) && i < |users|
    ensures FindFirst(WithProfiles(users, profiles), IsUser(users[i].id)) == Some((users[i], FirstProfile(profiles, users[i].id)))
  {
    var id := users[i].id;
    var head := JoinedRows(users[0], profiles);
    var tail := users[1..];
    assert WithProfiles(users, profiles) == head + WithProfiles(tail, profiles);
    if i == 0 {
      assert (head + WithProfiles(tail, profiles))[0] == head[0];
    } else {
      assert Pairwise(tail, UserBefore) by {
        forall a, b | 0 <= a < b < |tail| ensures UserBefore(tail[a], tail[b]) {
          assert tail[a] == users[a + 1] && tail[b] == users[b + 1];
        }
      }
      assert tail[i - 1] == users[i];
      UserRowPresent(tail, profiles, i - 1);
      assert UserBefore(users[0], users[i]);
      FindFirstSkip(head, WithProfiles(tail, profiles), IsUser(id));
    }
  }

  /** A user with exactly one profile yields one row, carrying it. */
  lemma SingleProfileRow(u: User, profiles: seq<UserProfile>, p: UserProfile)
    requires ProfilesOf(profiles, u.id) == [p]
    ensures JoinedRows(u, profiles) == [(u, Some(p))]
  {
  }

  // --------------------------------------------------------------- deletes

  /** The rows of a table other than the one with key `id`. */
  function WithoutUser(users: seq<User>, id: int): (r: seq<User>)
    ensures forall k :: 0 <= k < |r| ==> r[k] in users && r[k].id != id
    ensures forall k :: 0 <= k < |users| && users[k].id != id ==> users[k] in r
  {
    Filter(users, (u: User) => u.id != id)
  }

  function WithoutTask(tasks: seq<Task>, id: int): (r: seq<Task>)
    ensures forall k :: 0 <= k < |r| ==> r[k] in tasks && r[k].id != id
    ensures forall k :: 0 <= k < |tasks| && tasks[k].id != id ==> tasks[k] in r
  {
    Filter(tasks, (t: Task) => t.id != id)
  }

  function WithoutLabel(labels: seq<Label>, id: int): (r: seq<Label>)
    ensures forall k :: 0 <= k < |r| ==> r[k] in labels && r[k].id != id
    ensures forall k :: 0 <= k < |labels| && labels[k].id != id ==> labels[k] in r
  {
    Filter(labels, (l: Label) => l.id != id)
  }

  /** ON DELETE CASCADE from users: the rows of other users. */
  function ProfilesNotOf(profiles: seq<UserProfile>, uid: int): (r: seq<UserProfile>)
    ensures forall k :: 0 <= k < |r| ==> r[k] in profiles && r[k].userId != uid
    ensures forall k :: 0 <= k < |profiles| && profiles[k].userId != uid ==> profiles[k] in r
  {
    Filter(profiles, (p: UserProfile) => p.userId != uid)
  }

  function TasksNotOf(tasks: seq<Task>, uid: int): (r: seq<Task>)
    ensures forall k :: 0 <= k < |r| ==> r[k] in tasks && r[k].userId != uid
    ensures forall k :: 0 <= k < |tasks| && tasks[k].userId != uid ==> tasks[k] in r
  {
    Filter(tasks, (t: Task) => t.userId != uid)
  }

  function LabelsNotOf(labels: seq<Label>, uid: int): (r: seq<Label>)
    ensures forall k :: 0 <= k < |r| ==> r[k] in labels && r[k].userId != uid
    ensures forall k :: 0 <= k < |labels| && labels[k].userId != uid ==> labels[k] in r
  {
    Filter(labels, (l: Label) => l.userId != uid)
  }

  /** ON DELETE CASCADE into the join table: the join rows whose task and
      label both survive. */
  function JoinsAmong(joins: seq<TaskLabel>, tasks: seq<Task>, labels: seq<Label>): (r: seq<TaskLabel>)
    ensures forall k :: 0 <= k < |r| ==> r[k] in joins && r[k].taskId in TaskIds(tasks) && r[k].labelId in LabelIds(labels)
    ensures forall k :: 0 <= k < |joins| && joins[k].taskId in TaskIds(tasks) && joins[k].labelId in LabelIds(labels) ==> joins[k] in r
  {
    Filter(joins, (j: TaskLabel) => j.taskId in TaskIds(tasks) && j.labelId in LabelIds(labels))
  }

  /** Join rows that keep their foreign keys all survive the filter. */
  lemma JoinsAmongKeepsAll(joins: seq<TaskLabel>, tasks: seq<Task>, labels: seq<Label>, next: int)
    requires JoinsOk(joins, tasks, labels, next)
    ensures JoinsAmong(joins, tasks, labels) == joins
  {
    forall k | 0 <= k < |joins| ensures joins[k].taskId in TaskIds(tasks) && joins[k].labelId in LabelIds(labels) {
      assert JoinOk(joins[k], tasks, labels);
    }
    FilterAll(joins, (j: TaskLabel) => j.taskId in TaskIds(tasks) && j.labelId in LabelIds(labels));
  }

  // ------------------------------------------------- constraint preservation

  lemma UserIdsAppend(users: seq<User>, u: User)
    ensures UserIds(users + [u]) == UserIds(users) + {u.id}
  {
    forall x | x in UserIds(users) ensures x in UserIds(users + [u]) {
      var w :| w in users && w.id == x;
      assert w in users + [u];
    }
    assert u in users + [u];
  }

  lemma UserIdsReplace(users: seq<User>, i: nat, u: User)
    requires i < |users| && u.id == users[i].id
    ensures UserIds(users[i := u]) == UserIds(users)
  {
    var r := users[i := u];
    forall x | x in UserIds(users) ensures x in UserIds(r) {
      var w :| w in users && w.id == x;
      var k :| 0 <= k < |users| && users[k] == w;
      if k == i { assert r[i] == u; } else { assert r[k] == w; }
    }
    forall x | x in UserIds(r) ensures x in UserIds(users) {
      var w :| w in r && w.id == x;
      var k :| 0 <= k < |r| && r[k] == w;
      if k == i { assert users[i].id == x; } else { assert users[k] == w; }
    }
  }

  lemma TaskIdsAppend(tasks: seq<Task>, t: Task)
    ensures TaskIds(tasks + [t]) == TaskIds(tasks) + {t.id}
  {
    forall x | x in TaskIds(tasks) ensures x in TaskIds(tasks + [t]) {
      var w :| w in tasks && w.id == x;
      assert w in tasks + [t];
    }
    assert t in tasks + [t];
  }

  lemma TaskIdsReplace(tasks: seq<Task>, i: nat, t: Task)
    requires i < |tasks| && t.id == tasks[i].id
    ensures TaskIds(tasks[i := t]) == TaskIds(tasks)
  {
    var r := tasks[i := t];
    forall x | x in TaskIds(tasks) ensures x in TaskIds(r) {
      var w :| w in tasks && w.id == x;
      var k :| 0 <= k < |tasks| && tasks[k] == w;
      if k == i { assert r[i] == t; } else { assert r[k] == w; }
    }
    forall x | x in TaskIds(r) ensures x in TaskIds(tasks) {
      var w :| w in r && w.id == x;
      var k :| 0 <= k < |r| && r[k] == w;
      if k == i { assert tasks[i].id == x; } else { assert tasks[k] == w; }
    }
  }

  lemma LabelIdsAppend(labels: seq<Label>, l: Label)
    ensures LabelIds(labels + [l]) == LabelIds(labels) + {l.id}
  {
    forall x | x in LabelIds(labels) ensures x in LabelIds(labels + [l]) {
      var w :| w in labels && w.id == x;
      assert w in labels + [l];
    }
    assert l in labels + [l];
  }

  lemma LabelIdsReplace(labels: seq<Label>, i: nat, l: Label)
    requires i < |labels| && l.id == labels[i].id
    ensures LabelIds(labels[i := l]) == LabelIds(labels)
  {
    var r := labels[i := l];
    forall x | x in LabelIds(labels) ensures x in LabelIds(r) {
      var w :| w in labels && w.id == x;
      var k :| 0 <= k < |labels| && labels[k] == w;
      if k == i { assert r[i] == l; } else { assert r[k] == w; }
    }
    forall x | x in LabelIds(r) ensures x in LabelIds(labels) {
      var w :| w in r && w.id == x;
      var k :| 0 <= k < |r| && r[k] == w;
      if k == i { assert labels[i].id == x; } else { assert labels[k] == w; }
    }
  }

  /** Registering a user with one profile keeps every constraint. */
  lemma AppendUserWithProfile(db: Db, u: User, p: UserProfile)
    requires db.Valid()
    requires u.id == db.nextUserId && p.id == db.nextProfileId && p.userId == u.id
    ensures UsersOk(db.users + [u], db.nextUserId + 1)
    ensures ProfilesOk(db.profiles + [p], db.users + [u], db.nextProfileId + 1)
    ensures TasksOk(db.tasks, db.users + [u], db.nextTaskId)
    ensures LabelsOk(db.labels, db.users + [u], db.nextLabelId)
  {
    UserIdsAppend(db.users, u);
    PairwiseAppend(db.users, u, UserBefore);
    PairwiseAppend(db.profiles, p, ProfileBefore);
  }

  /** Rewriting a user's columns other than the key keeps every constraint. */
  lemma ReplaceUser(db: Db, i: nat, u: User)
    requires db.Valid()
    requires i < |db.users| && u.id == db.users[i].id
    ensures UsersOk(db.users[i := u], db.nextUserId)
    ensures ProfilesOk(db.profiles, db.users[i := u], db.nextProfileId)
    ensures TasksOk(db.tasks, db.users[i := u], db.nextTaskId)
    ensures LabelsOk(db.labels, db.users[i := u], db.nextLabelId)
  {
    UserIdsReplace(db.users, i, u);
    var r := db.users[i := u];
    forall a, b | 0 <= a < b < |r| ensures UserBefore(r[a], r[b]) {
      assert UserBefore(db.users[a], db.users[b]);
    }
  }

  /** A new task whose key is the next one, whose owner exists and whose uuid
      is unused keeps every constraint, and no existing join row refers to it. */
  lemma AppendTask(db: Db, t: Task)
    requires db.Valid()
    requires t.id == db.nextTaskId && t.userId in UserIds(db.users) && TaskColumnsOk(t)
    requires forall k :: 0 <= k < |db.tasks| ==> db.tasks[k].uuid != t.uuid
    ensures TasksOk(db.tasks + [t], db.users, db.nextTaskId + 1)
    ensures JoinsOk(db.taskLabels, db.tasks + [t], db.labels, db.nextTaskLabelId)
  {
    PairwiseAppend(db.tasks, t, TaskBefore);
    TaskIdsAppend(db.tasks, t);
    var ts := db.tasks + [t];
    forall k | 0 <= k < |db.taskLabels| ensures JoinOk(db.taskLabels[k], ts, db.labels) {
      var j := db.taskLabels[k];
      assert JoinOk(j, db.tasks, db.labels);
      var w :| w in db.tasks && w.id == j.taskId;
      assert j.taskId != t.id;
    }
  }

  /** Join rows between an existing task and labels of its owner keep every
      constraint of the join table. */
  lemma AppendJoins(tasks: seq<Task>, labels: seq<Label>, joins: seq<TaskLabel>, next: int, t: Task, ls: seq<Label>)
    requires Pairwise(tasks, TaskBefore) && Pairwise(labels, LabelBefore)
    requires JoinsOk(joins, tasks, labels, next)
    requires t in tasks
    requires forall k :: 0 <= k < |ls| ==> ls[k] in labels && ls[k].userId == t.userId
    ensures JoinsOk(joins + JoinRows(t.id, ls, next), tasks, labels, next + |ls|)
  {
    var rows := JoinRows(t.id, ls, next);
    var r := joins + rows;
    forall a, b | 0 <= a < b < |r| ensures JoinBefore(r[a], r[b]) {
      if b < |joins| {
        assert JoinBefore(joins[a], joins[b]);
      } else if a < |joins| {
        assert r[a] == joins[a] && r[b] == rows[b - |joins|];
      } else {
        assert r[a] == rows[a - |joins|] && r[b] == rows[b - |joins|];
      }
    }
    forall k | 0 <= k < |r| ensures r[k].id < next + |ls| && JoinOk(r[k], tasks, labels) {
      if k < |joins| {
        assert r[k] == joins[k];
      } else {
        var m := k - |joins|;
        assert r[k] == TaskLabel(next + m, t.id, ls[m].id);
        forall t', l | t' in tasks && l in labels && t'.id == t.id && l.id == ls[m].id
          ensures t'.userId == l.userId
        {
          SameKeySameTask(tasks, t', t);
          SameKeySameLabel(labels, l, ls[m]);
        }
      }
    }
  }

  lemma SameKeySameTask(tasks: seq<Task>, a: Task, b: Task)
    requires Pairwise(tasks, TaskBefore) && a in tasks && b in tasks && a.id == b.id
    ensures a == b
  {
    var i :| 0 <= i < |tasks| && tasks[i] == a;
    var j :| 0 <= j < |tasks| && tasks[j] == b;
  }

  lemma SameKeySameLabel(labels: seq<Label>, a: Label, b: Label)
    requires Pairwise(labels, LabelBefore) && a in labels && b in labels && a.id == b.id
    ensures a == b
  {
    var i :| 0 <= i < |labels| && labels[i] == a;
    var j :| 0 <= j < |labels| && labels[j] == b;
  }

  /** Rewriting a task's columns other than key, uuid and owner keeps every
      constraint. */
  lemma ReplaceTask(db: Db, i: nat, t: Task)
    requires db.Valid()
    requires i < |db.tasks| && t.id == db.tasks[i].id && t.uuid == db.tasks[i].uuid && t.userId == db.tasks[i].userId
    requires TaskColumnsOk(t)
    ensures TasksOk(db.tasks[i := t], db.users, db.nextTaskId)
    ensures JoinsOk(db.taskLabels, db.tasks[i := t], db.labels, db.nextTaskLabelId)
  {
    TaskIdsReplace(db.tasks, i, t);
    var r := db.tasks[i := t];
    forall a, b | 0 <= a < b < |r| ensures TaskBefore(r[a], r[b]) {
      assert TaskBefore(db.tasks[a], db.tasks[b]);
    }
    forall k | 0 <= k < |db.taskLabels| ensures JoinOk(db.taskLabels[k], r, db.labels) {
      var j := db.taskLabels[k];
      assert JoinOk(j, db.tasks, db.labels);
      forall t', l | t' in r && l in db.labels && t'.id == j.taskId && l.id == j.labelId
        ensures t'.userId == l.userId
      {
        var m :| 0 <= m < |r| && r[m] == t';
        assert db.tasks[m] in db.tasks;
      }
    }
  }

  /** A new label under the next key, of an existing owner who has no label
      with its title, keeps every constraint. */
  lemma AppendLabel(db: Db, l: Label)
    requires db.Valid()
    requires l.id == db.nextLabelId && l.userId in UserIds(db.users)
    requires forall k :: 0 <= k < |db.labels| ==> !(db.labels[k].userId == l.userId && db.labels[k].title == l.title)
    ensures LabelsOk(db.labels + [l], db.users, db.nextLabelId + 1)
    ensures JoinsOk(db.taskLabels, db.tasks, db.labels + [l], db.nextTaskLabelId)
  {
    PairwiseAppend(db.labels, l, LabelBefore);
    LabelIdsAppend(db.labels, l);
    var ls := db.labels + [l];
    forall k | 0 <= k < |db.taskLabels| ensures JoinOk(db.taskLabels[k], db.tasks, ls) {
      var j := db.taskLabels[k];
      assert JoinOk(j, db.tasks, db.labels);
      var w :| w in db.labels && w.id == j.labelId;
      assert j.labelId != l.id;
    }
  }

  /** Renaming a label to a title its owner has on no other label keeps
      every constraint. */
  lemma ReplaceLabel(db: Db, i: nat, l: Label)
    requires db.Valid()
    requires i < |db.labels| && l.id == db.labels[i].id && l.userId == db.labels[i].userId
    requires forall k :: 0 <= k < |db.labels| && k != i ==> !(db.labels[k].userId == l.userId && db.labels[k].title == l.title)
    ensures LabelsOk(db.labels[i := l], db.users, db.nextLabelId)
    ensures JoinsOk(db.taskLabels, db.tasks, db.labels[i := l], db.nextTaskLabelId)
  {
    LabelIdsReplace(db.labels, i, l);
    var r := db.labels[i := l];
    forall a, b | 0 <= a < b < |r| ensures LabelBefore(r[a], r[b]) {
      assert LabelBefore(db.labels[a], db.labels[b]);
    }
    forall k | 0 <= k < |db.taskLabels| ensures JoinOk(db.taskLabels[k], db.tasks, r) {
      var j := db.taskLabels[k];
      assert JoinOk(j, db.tasks, db.labels);
      forall t, l' | t in db.tasks && l' in r && t.id == j.taskId && l'.id == j.labelId
        ensures t.userId == l'.userId
      {
        var m :| 0 <= m < |r| && r[m] == l';
        assert db.labels[m] in db.labels;
      }
    }
  }

  /** Deleting rows of tasks and labels, with the cascade into the join
      table, keeps the join table's constraints. */
  lemma JoinsAmongOk(joins: seq<TaskLabel>, tasks: seq<Task>, labels: seq<Label>, next: int, tasks': seq<Task>, labels': seq<Label>)
    requires JoinsOk(joins, tasks, labels, next)
    requires forall k :: 0 <= k < |tasks'| ==> tasks'[k] in tasks
    requires forall k :: 0 <= k < |labels'| ==> labels'[k] in labels
    ensures JoinsOk(JoinsAmong(joins, tasks', labels'), tasks', labels', next)
  {
    var r := JoinsAmong(joins, tasks', labels');
    FilterPairwise(joins, (j: TaskLabel) => j.taskId in TaskIds(tasks') && j.labelId in LabelIds(labels'), JoinBefore);
    forall k | 0 <= k < |r| ensures r[k].id < next && JoinOk(r[k], tasks', labels') {
      var m :| 0 <= m < |joins| && joins[m] == r[k];
      assert JoinOk(joins[m], tasks, labels);
    }
  }

  /** A sub-table of a table keeps its key order and key bound. */
  lemma TasksSubOk(tasks: seq<Task>, users: seq<User>, next: int, tasks': seq<Task>, users': seq<User>)
    requires TasksOk(tasks, users, next)
    requires exists p :: tasks' == Filter(tasks, p)
    requires forall k :: 0 <= k < |tasks'| ==> tasks'[k].userId in UserIds(users')
    ensures TasksOk(tasks', users', next)
  {
    var p :| tasks' == Filter(tasks, p);
    FilterPairwise(tasks, p, TaskBefore);
    forall k | 0 <= k < |tasks'| ensures tasks'[k].id < next && TaskColumnsOk(tasks'[k]) {
      var m :| 0 <= m < |tasks| && tasks[m] == tasks'[k];
    }
  }

  lemma LabelsSubOk(labels: seq<Label>, users: seq<User>, next: int, labels': seq<Label>, users': seq<User>)
    requires LabelsOk(labels, users, next)
    requires exists p :: labels' == Filter(labels, p)
    requires forall k :: 0 <= k < |labels'| ==> labels'[k].userId in UserIds(users')
    ensures LabelsOk(labels', users', next)
  {
    var p :| labels' == Filter(labels, p);
    FilterPairwise(labels, p, LabelBefore);
    forall k | 0 <= k < |labels'| ensures labels'[k].id < next {
      var m :| 0 <= m < |labels| && labels[m] == labels'[k];
    }
  }

  /** Deleting a task and its join rows keeps every constraint. */
  lemma RemoveTask(db: Db, id: int)
    requires db.Valid()
    ensures TasksOk(WithoutTask(db.tasks, id), db.users, db.nextTaskId)
    ensures JoinsOk(JoinsAmong(db.taskLabels, WithoutTask(db.tasks, id), db.labels), WithoutTask(db.tasks, id), db.labels, db.nextTaskLabelId)
  {
    TasksSubOk(db.tasks, db.users, db.nextTaskId, WithoutTask(db.tasks, id), db.users);
    JoinsAmongOk(db.taskLabels, db.tasks, db.labels, db.nextTaskLabelId, WithoutTask(db.tasks, id), db.labels);
  }

  /** Deleting a label and its join rows keeps every constraint. */
  lemma RemoveLabel(db: Db, id: int)
    requires db.Valid()
    ensures LabelsOk(WithoutLabel(db.labels, id), db.users, db.nextLabelId)
    ensures JoinsOk(JoinsAmong(db.taskLabels, db.tasks, WithoutLabel(db.labels, id)), db.tasks, WithoutLabel(db.labels, id), db.nextTaskLabelId)
  {
    LabelsSubOk(db.labels, db.users, db.nextLabelId, WithoutLabel(db.labels, id), db.users);
    JoinsAmongOk(db.taskLabels, db.tasks, db.labels, db.nextTaskLabelId, db.tasks, WithoutLabel(db.labels, id));
  }

  lemma UsersRemove(users: seq<User>, next: int, id: int)
    requires UsersOk(users, next)
    ensures UsersOk(WithoutUser(users, id), next)
    ensures forall uid :: uid in UserIds(users) && uid != id ==> uid in UserIds(WithoutUser(users, id))
  {
    var users' := WithoutUser(users, id);
    FilterPairwise(users, (u: User) => u.id != id, UserBefore);
    forall k | 0 <= k < |users'| ensures users'[k].id < next {
      var m :| 0 <= m < |users| && users[m] == users'[k];
    }
    forall uid | uid in UserIds(users) && uid != id ensures uid in UserIds(users') {
      var w :| w in users && w.id == uid;
      var m :| 0 <= m < |users| && users[m] == w;
      assert w in users';
    }
  }

  lemma ProfilesRemove(profiles: seq<UserProfile>, users: seq<User>, next: int, id: int, users': seq<User>)
    requires ProfilesOk(profiles, users, next)
    requires forall uid :: uid in UserIds(users) && uid != id ==> uid in UserIds(users')
    ensures ProfilesOk(ProfilesNotOf(profiles, id), users', next)
  {
    var profiles' := ProfilesNotOf(profiles, id);
    FilterPairwise(profiles, (p: UserProfile) => p.userId != id, ProfileBefore);
    forall k | 0 <= k < |profiles'| ensures profiles'[k].id < next && profiles'[k].userId in UserIds(users') {
      var m :| 0 <= m < |profiles| && profiles[m] == profiles'[k];
    }
  }

  lemma TasksRemove(tasks: seq<Task>, users: seq<User>, next: int, id: int, users': seq<User>)
    requires TasksOk(tasks, users, next)
    requires forall uid :: uid in UserIds(users) && uid != id ==> uid in UserIds(users')
    ensures TasksOk(TasksNotOf(tasks, id), users', next)
  {
    var tasks' := TasksNotOf(tasks, id);
    forall k | 0 <= k < |tasks'| ensures tasks'[k].userId in UserIds(users') {
      var m :| 0 <= m < |tasks| && tasks[m] == tasks'[k];
    }
    TasksSubOk(tasks, users, next, tasks', users');
  }

  lemma LabelsRemove(labels: seq<Label>, users: seq<User>, next: int, id: int, users': seq<User>)
    requires LabelsOk(labels, users, next)
    requires forall uid :: uid in UserIds(users) && uid != id ==> uid in UserIds(users')
    ensures LabelsOk(LabelsNotOf(labels, id), users', next)
  {
    var labels' := LabelsNotOf(labels, id);
    forall k | 0 <= k < |labels'| ensures labels'[k].userId in UserIds(users') {
      var m :| 0 <= m < |labels| && labels[m] == labels'[k];
    }
    LabelsSubOk(labels, users, next, labels', users');
  }

  /** Deleting a user, with the cascade into profiles, tasks, labels and the
      join table, keeps every constraint. */
  lemma RemoveUser(db: Db, id: int)
    requires db.Valid()
    ensures UsersOk(WithoutUser(db.users, id), db.nextUserId)
    ensures ProfilesOk(ProfilesNotOf(db.profiles, id), WithoutUser(db.users, id), db.nextProfileId)
    ensures TasksOk(TasksNotOf(db.tasks, id), WithoutUser(db.users, id), db.nextTaskId)
    ensures LabelsOk(LabelsNotOf(db.labels, id), WithoutUser(db.users, id), db.nextLabelId)
    ensures JoinsOk(JoinsAmong(db.taskLabels, TasksNotOf(db.tasks, id), LabelsNotOf(db.labels, id)),
      TasksNotOf(db.tasks, id), LabelsNotOf(db.labels, id), db.nextTaskLabelId)
  {
    var users' := WithoutUser(db.users, id);
    UsersRemove(db.users, db.nextUserId, id);
    ProfilesRemove(db.profiles, db.users, db.nextProfileId, id, users');
    TasksRemove(db.tasks, db.users, db.nextTaskId, id, users');
    LabelsRemove(db.labels, db.users, db.nextLabelId, id, users');
    JoinsAmongOk(db.taskLabels, db.tasks, db.labels, db.nextTaskLabelId, TasksNotOf(db.tasks, id), LabelsNotOf(db.labels, id));
  }
}
