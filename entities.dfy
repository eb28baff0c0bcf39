/** Row shapes of the five tables (the entity models under src/models/_entities and the
    migrations). Timestamps are abstract instants (`DateTimeWithTimeZone`);
    the clock that produces them is a parameter of the operations. */
module Entities {
  import opened Common

  type Timestamp = int

  datatype User = User(
    id: int,
    name: string,
    username: string,
    email: string,
    password: string,
    dateCreated: Timestamp,
    dateUpdated: Option<Timestamp>)

  datatype UserProfile = UserProfile(
    id: int,
    userId: int,
    address: Option<string>,
    mobileNumber: Option<string>)

  datatype Task = Task(
    id: int,
    title: string,
    description: string,
    status: string,
    priority: string,
    uuid: string,
    dueDate: Option<Timestamp>,
    dateCreated: Timestamp,
    dateUpdated: Option<Timestamp>,
    userId: int)

  /** The label entity model; the table's `color` column (default "#FFFFFF")
      is not part of the model struct. */
  datatype Label = Label(id: int, title: string, userId: int)

  /** A join row of the task-label many-to-many relation. */
  datatype TaskLabel = TaskLabel(id: int, taskId: int, labelId: int)

  function UserIds(s: seq<User>): set<int> { set u | u in s :: u.id }
  function TaskIds(s: seq<Task>): set<int> { set t | t in s :: t.id }
  function LabelIds(s: seq<Label>): set<int> { set l | l in s :: l.id }

  function Titles(ls: seq<Label>): (r: seq<string>)
    ensures |r| == |ls|
    ensures forall k :: 0 <= k < |ls| ==> r[k] == ls[k].title
  {
    seq(|ls|, k requires 0 <= k < |ls| => ls[k].title)
  }
}
