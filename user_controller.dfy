/** The user routes (src/controller/user_controller.rs). The validation rules
    of the user forms and the password hash applied by the request
    conversion are parameters, as are the clock, the rendering of
    timestamps, the `PER_PAGE` environment variable, `ResponseMetadata::new`
    and injected write failures. */
module UserController {
  import opened Common
  import opened Errors
  import opened Entities
  import opened UserForm
  import opened UserHook
  import opened Serializer
  import opened Pagination
  import opened Store

  type Row = (User, Option<UserProfile>)

  const USER_NOT_FOUND := "User not found."
  const USER_DELETED := "User deleted successfully"

  const NotFound: AppError := SeaOrm(RecordNotFound(USER_NOT_FOUND))

  // -------------------------------------------------------------- get_users

  /** The user columns the listing can filter on, and their query keys. */
  datatype Column = Name | Username | Email

  function Key(c: Column): string {
    match c
    case Name => "name"
    case Username => "username"
    case Email => "email"
  }

  function ColumnOf(u: User, c: Column): string {
    match c
    case Name => u.name
    case Username => u.username
    case Email => u.email
  }

  /** `.filter(user::Column::X.contains(needle))` on the joined rows. */
  function WhereContains(rows: seq<Row>, c: Column, needle: string): seq<Row> {
    Filter(rows, (row: Row) => Contains(ColumnOf(row.0, c), needle))
  }

  /** One conditional filter of get_users: applied only when its key is present. */
  function Stage(rows: seq<Row>, params: map<string, string>, c: Column): seq<Row> {
    if Key(c) in params then WhereContains(rows, c, params[Key(c)]) else rows
  }

  /** A user passes the filter of column `c`: the key is absent, or the
      column contains its value. */
  predicate KeyOk(params: map<string, string>, c: Column, u: User) {
    Key(c) in params ==> Contains(ColumnOf(u, c), params[Key(c)])
  }

  /** A user the listing shows: every supplied filter holds. */
  predicate UserMatches(params: map<string, string>, u: User) {
    KeyOk(params, Name, u) && KeyOk(params, Username, u) && KeyOk(params, Email, u)
  }

  function UserFilter(params: map<string, string>): User -> bool {
    u => UserMatches(params, u)
  }

  function RowFilter(params: map<string, string>): Row -> bool {
    (row: Row) => UserMatches(params, row.0)
  }

  function MatchingUsers(users: seq<User>, params: map<string, string>): (r: seq<User>)
    ensures forall k :: 0 <= k < |r| ==> r[k] in users && UserMatches(params, r[k])
    ensures forall k :: 0 <= k < |users| && UserMatches(params, users[k]) ==> users[k] in r
  {
    Filter(users, UserFilter(params))
  }

  lemma StageCons(x: Row, rest: seq<Row>, params: map<string, string>, c: Column)
    ensures Stage([x] + rest, params, c) == (if KeyOk(params, c, x.0) then [x] else []) + Stage(rest, params, c)
  {
    assert ([x] + rest)[0] == x && ([x] + rest)[1..] == rest;
  }

  /** The three conditional filters of get_users, applied one after the
      other, keep exactly the rows whose user satisfies all of them, in
      order. */
  lemma {:induction false} StagesMeaning(rows: seq<Row>, params: map<string, string>)
    ensures Stage(Stage(Stage(rows, params, Name), params, Username), params, Email) == Filter(rows, RowFilter(params))
  {
    if rows != [] {
      var x, rest := rows[0], rows[1..];
      assert rows == [x] + rest;
      StagesMeaning(rest, params);
      StageCons(x, rest, params, Name);
      var a := Stage(rest, params, Name);
      if KeyOk(params, Name, x.0) {
        StageCons(x, a, params, Username);
        var b := Stage(a, params, Username);
        if KeyOk(params, Username, x.0) {
          StageCons(x, b, params, Email);
        }
      }
    }
  }

  /** The filtered joined rows are the join of the matching users: one row per
      profile of each matching user, or one row without a profile. */
  lemma UserQueryMeaning(users: seq<User>, profiles: seq<UserProfile>, params: map<string, string>)
    ensures Stage(Stage(Stage(WithProfiles(users, profiles), params, Name), params, Username), params, Email)
      == WithProfiles(MatchingUsers(users, params), profiles)
    ensures forall k :: 0 <= k < |WithProfiles(MatchingUsers(users, params), profiles)| ==>
      UserMatches(params, WithProfiles(MatchingUsers(users, params), profiles)[k].0)
  {
    StagesMeaning(WithProfiles(users, profiles), params);
    WithProfilesFilter(users, profiles, UserFilter(params), RowFilter(params));
  }

  function RowCreatedAt(row: Row): int { row.0.dateCreated }

  /** `get_users`: the matching joined rows, counted, then page `page - 1`
      of 10 ordered by the user's creation time, newest first. Page 0
      underflows the subtraction. */
  method GetUsers(db: Db, params: map<string, string>, uri: string, show: Timestamp -> string)
    returns (r: Outcome<Listing<UserWithProfileSerializer>>)
    ensures var rows := WithProfiles(MatchingUsers(db.users, params), db.profiles);
      match PageIndex(ParsePage(params))
      case None => r == Panic(SUBTRACT_OVERFLOW)
      case Some(index) =>
        r == Ok(Listing(ListMeta(|rows|, uri),
          SerializeRows(FetchPage(SortDesc(rows, RowCreatedAt), PER_PAGE, index), show)))
  {
    var query := WithProfiles(db.users, db.profiles);
    if "name" in params {
      query := WhereContains(query, Name, params["name"]);
    }
    if "username" in params {
      query := WhereContains(query, Username, params["username"]);
    }
    if "email" in params {
      query := WhereContains(query, Email, params["email"]);
    }
    UserQueryMeaning(db.users, db.profiles, params);
    var page := ParsePage(params);
    var meta := ListMeta(|query|, uri);
    var index := PageIndex(page);
    if index.None? {
      return Panic(SUBTRACT_OVERFLOW);
    }
    var rows := FetchPage(SortDesc(query, RowCreatedAt), PER_PAGE, index.value);
    r := Ok(Listing(meta, SerializeRows(rows, show)));
  }

  /** The count of get_users counts joined rows, not users: a matching user
      with no profile counts once and one with several profiles once per
      profile, so the count is at least the number of matching users. */
  lemma UserCountCountsRows(users: seq<User>, profiles: seq<UserProfile>, params: map<string, string>)
    ensures |WithProfiles(MatchingUsers(users, params), profiles)| >= |MatchingUsers(users, params)|
  {
  }

  /** With no filter key every user is listed. */
  lemma NoFilterListsEveryone(users: seq<User>)
    ensures MatchingUsers(users, map[]) == users
  {
    FilterAll(users, UserFilter(map[]));
  }

  // --------------------------------------------------------------- get_user

  /** `get_user`: the user with that key and its first profile, or "User not
      found." */
  method GetUser(db: Db, id: int, show: Timestamp -> string) returns (r: Outcome<UserWithProfileSerializer>)
    requires db.Valid()
    ensures r.Ok? || r.Err?
    ensures r.Err? <==> id !in UserIds(db.users)
    ensures r.Err? ==> r.error == NotFound
    ensures r.Ok? ==> exists k :: (0 <= k < |db.users| && db.users[k].id == id
      && r.value == SerializeUserWithProfile((db.users[k], FirstProfile(db.profiles, id)), show))
  {
    var found := FindFirst(WithProfiles(db.users, db.profiles), IsUser(id));
    var i := UserIndex(db.users, id);
    if i.None? {
      UserRowAbsent(db.users, db.profiles, id);
    } else {
      UserRowPresent(db.users, db.profiles, i.value);
    }
    if found.None? {
      return Err(NotFound);
    }
    r := Ok(SerializeUserWithProfile(found.value, show));
  }

  // ------------------------------------------------------------ create_user

  /** The user row the insert creates from a create request. */
  function NewUser(payload: CreateUserRequest, hash: string -> string, id: int, now: Timestamp): (u: User)
    ensures u == User(id, payload.name, payload.username, payload.email, hash(payload.password), now, None)
  {
    InsertFromRequest(payload, hash, id, now);
    ApplyInsert(BeforeSave(FromCreateRequest(payload, hash), true, now).value, id, now)
  }

  /** The profile row inserted with it. */
  function NewProfile(payload: CreateUserRequest, id: int, uid: int): UserProfile {
    UserProfile(id, uid, Some(payload.address), Some(payload.mobileNumber))
  }

  /** `create_user` (and `register`, which has the same body): validation,
      then one transaction inserting the user and its profile. Either both
      rows are stored or, on any failure, neither: the error is reported as
      `GenericError` with the database error's text. */
  method CreateUser(db: Db, payload: CreateUserRequest, rules: UserRules, hash: string -> string, now: Timestamp, fault: Fault, show: Timestamp -> string)
    returns (r: Outcome<UserWithProfileSerializer>)
    requires db.Valid()
    modifies db
    ensures db.Valid()
    ensures !r.Ok? ==> unchanged(db)
    ensures |db.users| - |old(db.users)| == |db.profiles| - |old(db.profiles)|
    ensures rules.create(payload).Failed? ==> r == Err(Validation(rules.create(payload).errors))
    ensures var u := User(old(db.nextUserId), payload.name, payload.username, payload.email, hash(payload.password), now, None);
      var p := UserProfile(old(db.nextProfileId), u.id, Some(payload.address), Some(payload.mobileNumber));
      rules.create(payload).Passed? ==>
        if Rejection(fault, Insert(UserTable)).Some? then r == Err(GenericError(DbErrText(Rejection(fault, Insert(UserTable)).value)))
        else if Rejection(fault, Insert(ProfileTable)).Some? then r == Err(GenericError(DbErrText(Rejection(fault, Insert(ProfileTable)).value)))
        else
          && r == Ok(SerializeUserWithProfile((u, Some(p)), show))
          && db.users == old(db.users) + [u]
          && db.profiles == old(db.profiles) + [p]
          && db.nextUserId == old(db.nextUserId) + 1
          && db.nextProfileId == old(db.nextProfileId) + 1
          && db.tasks == old(db.tasks) && db.labels == old(db.labels) && db.taskLabels == old(db.taskLabels)
          && db.nextTaskId == old(db.nextTaskId) && db.nextLabelId == old(db.nextLabelId)
          && db.nextTaskLabelId == old(db.nextTaskLabelId)
  {
    var checked := rules.create(payload);
    if checked.Failed? {
      return Err(Validation(checked.errors));
    }
    var e := Rejection(fault, Insert(UserTable));
    if e.Some? {
      return Err(GenericError(DbErrText(e.value)));
    }
    var user := NewUser(payload, hash, db.nextUserId, now);
    var e2 := Rejection(fault, Insert(ProfileTable));
    if e2.Some? {
      return Err(GenericError(DbErrText(e2.value)));
    }
    var profile := NewProfile(payload, db.nextProfileId, user.id);
    AppendUserWithProfile(db, user, profile);
    db.users := db.users + [user];
    db.profiles := db.profiles + [profile];
    db.nextUserId := db.nextUserId + 1;
    db.nextProfileId := db.nextProfileId + 1;
    r := Ok(SerializeUserWithProfile((user, Some(profile)), show));
  }

  /** A user created with its profile is found again by `get_user`, with
      that profile. */
  lemma CreatedUserIsFound(users: seq<User>, profiles: seq<UserProfile>, u: User, p: UserProfile)
    requires Pairwise(users, UserBefore) && forall k :: 0 <= k < |users| ==> users[k].id < u.id
    requires forall k :: 0 <= k < |profiles| ==> profiles[k].userId != u.id
    requires p.userId == u.id
    ensures FindFirst(WithProfiles(users + [u], profiles + [p]), IsUser(u.id)) == Some((u, Some(p)))
  {
    PairwiseAppend(users, u, UserBefore);
    UserRowPresent(users + [u], profiles + [p], |users|);
    var ps := profiles + [p];
    assert ps[|profiles|] == p;
  }

  // ------------------------------------------------------------ update_user

  /** The active model `update_user` saves: every column as loaded, with
      name, username and email set and the password set only when one is
      supplied. */
  function UpdateModel(u: User, payload: UpdateUserRequest): UserActiveModel {
    FromModel(u).(name := Set(payload.name), username := Set(payload.username), email := Set(payload.email),
      password := if payload.password.Some? then Set(payload.password.value) else NotSet)
  }

  /** `update_user`: the lookup comes first, then validation, then one
      update whose save hook stamps the modification time. */
  method UpdateUser(db: Db, id: int, payload: UpdateUserRequest, rules: UserRules, now: Timestamp, fault: Fault, show: Timestamp -> string)
    returns (r: Outcome<UserSerializer>)
    requires db.Valid()
    modifies db
    ensures db.Valid()
    ensures !r.Ok? ==> unchanged(db)
    ensures db.Counters() == old(db.Counters())
    ensures UserIndex(old(db.users), id).None? ==> r == Err(NotFound)
    ensures UserIndex(old(db.users), id).Some? ==>
      var i := UserIndex(old(db.users), id).value;
      var u := old(db.users[i]);
      var updated := u.(name := payload.name, username := payload.username, email := payload.email,
        password := if payload.password.Some? then payload.password.value else u.password,
        dateUpdated := Some(now));
      if rules.update(payload).Failed? then r == Err(Validation(rules.update(payload).errors))
      else if Rejection(fault, Update(UserTable)).Some? then r == Err(SeaOrm(Rejection(fault, Update(UserTable)).value))
      else
        && r == Ok(SerializeUser(updated, show))
        && db.users == old(db.users)[i := updated]
        && db.profiles == old(db.profiles) && db.tasks == old(db.tasks)
        && db.labels == old(db.labels) && db.taskLabels == old(db.taskLabels)
  {
    var found := UserIndex(db.users, id);
    if found.None? {
      return Err(NotFound);
    }
    var user := db.users[found.value];
    var checked := rules.update(payload);
    if checked.Failed? {
      return Err(Validation(checked.errors));
    }
    var saved := BeforeSave(UpdateModel(user, payload), false, now);
    var updated := ApplyUpdate(user, saved.value);
    var e := Rejection(fault, Update(UserTable));
    if e.Some? {
      return Err(SeaOrm(e.value));
    }
    ReplaceUser(db, found.value, updated);
    db.users := db.users[found.value := updated];
    r := Ok(SerializeUser(updated, show));
  }

  /** The update never touches the key or the creation time, and leaves the
      stored password as it was when none is supplied. */
  lemma UpdateKeepsIdentity(u: User, payload: UpdateUserRequest, now: Timestamp)
    ensures var v := ApplyUpdate(u, BeforeSave(UpdateModel(u, payload), false, now).value);
      && v.id == u.id && v.dateCreated == u.dateCreated
      && (payload.password.None? ==> v.password == u.password)
  {
  }

  // ------------------------------------------------------------ delete_user

  /** `delete_user`: deletes by key and reports success whether or not a
      user had that key; the user's profiles, tasks and labels and the join
      rows of those go with it through the foreign keys' cascade. */
  method DeleteUser(db: Db, id: int, fault: Fault) returns (r: Outcome<string>)
    requires db.Valid()
    modifies db
    ensures db.Valid()
    ensures !r.Ok? ==> unchanged(db)
    ensures db.Counters() == old(db.Counters())
    ensures Rejection(fault, Delete(UserTable)).Some? ==> r == Err(SeaOrm(Rejection(fault, Delete(UserTable)).value))
    ensures Rejection(fault, Delete(UserTable)).None? ==>
      && r == Ok(USER_DELETED)
      && db.users == WithoutUser(old(db.users), id)
      && db.profiles == ProfilesNotOf(old(db.profiles), id)
      && db.tasks == TasksNotOf(old(db.tasks), id)
      && db.labels == LabelsNotOf(old(db.labels), id)
      && db.taskLabels == JoinsAmong(old(db.taskLabels), db.tasks, db.labels)
  {
    var e := Rejection(fault, Delete(UserTable));
    if e.Some? {
      return Err(SeaOrm(e.value));
    }
    var users := WithoutUser(db.users, id);
    var profiles := ProfilesNotOf(db.profiles, id);
    var tasks := TasksNotOf(db.tasks, id);
    var labels := LabelsNotOf(db.labels, id);
    var joins := JoinsAmong(db.taskLabels, tasks, labels);
    RemoveUser(db, id);
    db.Commit(users, profiles, tasks, labels, joins);
    r := Ok(USER_DELETED);
  }

  /** Deleting a key no user has changes no table. */
  lemma DeleteAbsentUserChangesNothing(db: Db, id: int)
    requires db.Valid() && id !in UserIds(db.users)
    ensures WithoutUser(db.users, id) == db.users
    ensures ProfilesNotOf(db.profiles, id) == db.profiles
    ensures TasksNotOf(db.tasks, id) == db.tasks
    ensures LabelsNotOf(db.labels, id) == db.labels
    ensures JoinsAmong(db.taskLabels, db.tasks, db.labels) == db.taskLabels
  {
    FilterAll(db.users, (u: User) => u.id != id);
    FilterAll(db.profiles, (p: UserProfile) => p.userId != id);
    FilterAll(db.tasks, (t: Task) => t.userId != id);
    FilterAll(db.labels, (l: Label) => l.userId != id);
    JoinsAmongKeepsAll(db.taskLabels, db.tasks, db.labels, db.nextTaskLabelId);
  }

  // --------------------------------------------------------- get_user_tasks

  /** The page size of get_user_tasks: `PER_PAGE` from the environment when
      it parses as an unsigned 64-bit integer, 10 otherwise. */
  function PerPage(env: Option<string>): (n: nat)
    ensures env.None? ==> n == PER_PAGE
    ensures env.Some? && ParseU64(env.value).None? ==> n == PER_PAGE
    ensures env.Some? && ParseU64(env.value).Some? ==> n == ParseU64(env.value).value
  {
    if env.Some? && ParseU64(env.value).Some? then ParseU64(env.value).value else PER_PAGE
  }

  /** `get_user_tasks`: the user's tasks in table order, counted, then page
      `page - 1` of `PER_PAGE` of them. An unknown user is "User not found.";
      page 0 underflows the subtraction. */
  method GetUserTasks(db: Db, id: int, params: map<string, string>, uri: string, env: Option<string>,
                      newMeta: (nat, Option<string>) -> Meta, show: Timestamp -> string)
    returns (r: Outcome<Listing<TaskSerializer>>)
    ensures UserIndex(db.users, id).None? ==> r == Err(NotFound)
    ensures UserIndex(db.users, id).Some? ==>
      var tasks := TasksOf(db.tasks, id);
      match PageIndex(ParsePage(params))
      case None => r == Panic(SUBTRACT_OVERFLOW)
      case Some(index) =>
        r == Ok(Listing(newMeta(|tasks|, Some(uri)), SerializeTasks(FetchPage(tasks, PerPage(env), index), show)))
  {
    var found := UserIndex(db.users, id);
    if found.None? {
      return Err(NotFound);
    }
    var query := TasksOf(db.tasks, db.users[found.value].id);
    var meta := newMeta(|query|, Some(uri));
    var page := ParsePage(params);
    var perPage := PerPage(env);
    var index := PageIndex(page);
    if index.None? {
      return Panic(SUBTRACT_OVERFLOW);
    }
    r := Ok(Listing(meta, SerializeTasks(FetchPage(query, perPage, index.value), show)));
  }

  /** Across all pages, get_user_tasks lists every task of the user exactly
      once and in table order. */
  lemma UserTaskPagesCoverAll(tasks: seq<Task>, id: int, env: Option<string>)
    requires PerPage(env) > 0
    ensures PagesUpTo(TasksOf(tasks, id), PerPage(env), DivCeil(|TasksOf(tasks, id)|, PerPage(env))) == TasksOf(tasks, id)
  {
    PagesCoverAll(TasksOf(tasks, id), PerPage(env));
  }
}
