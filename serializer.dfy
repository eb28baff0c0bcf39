/** The response projections of src/serializer.rs. Rendering a timestamp
    (`to_string` of `DateTimeWithTimeZone`) is chrono's and is passed in as
    `show`. */
module Serializer {
  import opened Common
  import opened Entities

  datatype UserSerializer = UserSerializer(
    id: int, name: string, username: string, email: string,
    dateCreated: string, dateUpdated: Option<string>)

  datatype UserProfileSerializer = UserProfileSerializer(
    id: int, address: Option<string>, mobileNumber: Option<string>)

  datatype UserWithProfileSerializer = UserWithProfileSerializer(
    id: int, name: string, username: string, email: string,
    dateCreated: string, dateUpdated: Option<string>,
    profile: Option<UserProfileSerializer>)

  datatype TaskSerializer = TaskSerializer(
    id: int, title: string, description: string, status: string, priority: string,
    uuid: string, dueDate: Option<string>, dateCreated: string, dateUpdated: Option<string>)

  datatype LabelSerializer = LabelSerializer(id: int, title: string)

  datatype FullTaskSerializer = FullTaskSerializer(task: TaskSerializer, labels: seq<LabelSerializer>)

  /** `Option::map(|v| v.to_string())`. */
  function ShowOpt(o: Option<Timestamp>, show: Timestamp -> string): (r: Option<string>)
    ensures r.None? <==> o.None?
    ensures o.Some? ==> r.value == show(o.value)
  {
    match o
    case None => None
    case Some(v) => Some(show(v))
  }

  function SerializeUser(u: User, show: Timestamp -> string): (r: UserSerializer)
    ensures r.id == u.id && r.name == u.name && r.username == u.username && r.email == u.email
    ensures r.dateUpdated.None? <==> u.dateUpdated.None?
  {
    UserSerializer(u.id, u.name, u.username, u.email, show(u.dateCreated), ShowOpt(u.dateUpdated, show))
  }

  function SerializeProfile(p: UserProfile): (r: UserProfileSerializer)
    ensures r.id == p.id && r.address == p.address && r.mobileNumber == p.mobileNumber
  {
    UserProfileSerializer(p.id, p.address, p.mobileNumber)
  }

  function SerializeUserWithProfile(row: (User, Option<UserProfile>), show: Timestamp -> string): (r: UserWithProfileSerializer)
    ensures r.id == row.0.id && r.name == row.0.name && r.username == row.0.username && r.email == row.0.email
    ensures r.dateUpdated.None? <==> row.0.dateUpdated.None?
    ensures r.profile.None? <==> row.1.None?
    ensures row.1.Some? ==> r.profile.value == UserProfileSerializer(row.1.value.id, row.1.value.address, row.1.value.mobileNumber)
  {
    var (user, profile) := row;
    UserWithProfileSerializer(user.id, user.name, user.username, user.email,
      show(user.dateCreated), ShowOpt(user.dateUpdated, show),
      match profile case None => None case Some(p) => Some(SerializeProfile(p)))
  }

  function SerializeTask(t: Task, show: Timestamp -> string): (r: TaskSerializer)
    ensures r.id == t.id && r.title == t.title && r.description == t.description
    ensures r.status == t.status && r.priority == t.priority && r.uuid == t.uuid
    ensures r.dueDate.None? <==> t.dueDate.None?
    ensures r.dateUpdated.None? <==> t.dateUpdated.None?
  {
    TaskSerializer(t.id, t.title, t.description, t.status, t.priority, t.uuid,
      ShowOpt(t.dueDate, show), show(t.dateCreated), ShowOpt(t.dateUpdated, show))
  }

  function SerializeLabel(l: Label): (r: LabelSerializer)
    ensures r.id == l.id && r.title == l.title
  {
    LabelSerializer(l.id, l.title)
  }

  function SerializeLabels(ls: seq<Label>): (r: seq<LabelSerializer>)
    ensures |r| == |ls|
    ensures forall k :: 0 <= k < |ls| ==> r[k] == SerializeLabel(ls[k])
  {
    seq(|ls|, k requires 0 <= k < |ls| => SerializeLabel(ls[k]))
  }

  function SerializeTasks(ts: seq<Task>, show: Timestamp -> string): (r: seq<TaskSerializer>)
    ensures |r| == |ts|
    ensures forall k :: 0 <= k < |ts| ==> r[k] == SerializeTask(ts[k], show)
  {
    seq(|ts|, k requires 0 <= k < |ts| => SerializeTask(ts[k], show))
  }

  function SerializeRows(rows: seq<(User, Option<UserProfile>)>, show: Timestamp -> string): (r: seq<UserWithProfileSerializer>)
    ensures |r| == |rows|
    ensures forall k :: 0 <= k < |rows| ==> r[k] == SerializeUserWithProfile(rows[k], show)
  {
    seq(|rows|, k requires 0 <= k < |rows| => SerializeUserWithProfile(rows[k], show))
  }

  /** The password never reaches a response: users that differ only in
      their password hash serialize identically, with or without profile. */
  lemma PasswordNotSerialized(u: User, password: string, profile: Option<UserProfile>, show: Timestamp -> string)
    ensures SerializeUser(u.(password := password), show) == SerializeUser(u, show)
    ensures SerializeUserWithProfile((u.(password := password), profile), show)
      == SerializeUserWithProfile((u, profile), show)
  {
  }

  /** Task and label responses drop the owning user's id. */
  lemma OwnerNotSerialized(t: Task, l: Label, owner: int, show: Timestamp -> string)
    ensures SerializeTask(t.(userId := owner), show) == SerializeTask(t, show)
    ensures SerializeLabel(l.(userId := owner)) == SerializeLabel(l)
  {
  }

  /** Everything but the owner survives the label projection: two labels with
      the same projection differ at most in their owner. */
  lemma LabelProjectionKeepsIdentity(a: Label, b: Label)
    requires SerializeLabel(a) == SerializeLabel(b)
    ensures a == b.(userId := a.userId)
  {
  }
}
