/** The save hook of the user active model (src/models/user.rs) and the
    active-model values it works on. An active model holds one
    `ActiveValue` per column: `Set` (to be written), `NotSet` (left to the
    database) or `Unchanged` (as loaded). */
module UserHook {
  import opened Common
  import opened Errors
  import opened Entities
  import opened UserForm

  datatype ActiveValue<+T> = Set(value: T) | NotSet | Unchanged(value: T)

  datatype UserActiveModel = UserActiveModel(
    id: ActiveValue<int>,
    name: ActiveValue<string>,
    username: ActiveValue<string>,
    email: ActiveValue<string>,
    password: ActiveValue<string>,
    dateCreated: ActiveValue<Timestamp>,
    dateUpdated: ActiveValue<Option<Timestamp>>)

  /** `before_save(self, db, insert)` with `now` the clock reading: an insert
      with no creation time gets `now`, an update whose modification time was
      not touched gets `Some(now)`; nothing else is changed and the hook
      never fails. */
  function BeforeSave(am: UserActiveModel, insert: bool, now: Timestamp): (r: Result<UserActiveModel, DbErr>)
    ensures r.Success?
    ensures insert ==> r.value.dateUpdated == am.dateUpdated
    ensures !insert ==> r.value.dateCreated == am.dateCreated
    ensures r.value.(dateCreated := am.dateCreated, dateUpdated := am.dateUpdated) == am
  {
    if insert && am.dateCreated.NotSet? then
      Success(am.(dateCreated := Set(now)))
    else if !insert && am.dateUpdated.Unchanged? then
      Success(am.(dateUpdated := Set(Some(now))))
    else
      Success(am)
  }

  /** The three cases of the hook, each stated as the model it returns. */
  lemma BeforeSaveCases(am: UserActiveModel, insert: bool, now: Timestamp)
    ensures insert && am.dateCreated.NotSet? ==>
      BeforeSave(am, insert, now).value == am.(dateCreated := Set(now))
    ensures !insert && am.dateUpdated.Unchanged? ==>
      BeforeSave(am, insert, now).value == am.(dateUpdated := Set(Some(now)))
    ensures (insert && !am.dateCreated.NotSet?) || (!insert && !am.dateUpdated.Unchanged?) ==>
      BeforeSave(am, insert, now).value == am
  {
  }

  /** Running the hook a second time, at any later instant, changes nothing:
      the column it stamps is `Set` afterwards. */
  lemma BeforeSaveIdempotent(am: UserActiveModel, insert: bool, now: Timestamp, later: Timestamp)
    ensures BeforeSave(BeforeSave(am, insert, now).value, insert, later) == BeforeSave(am, insert, now)
  {
  }

  /** `user.into()`: every column of a loaded row is `Unchanged`. */
  function FromModel(u: User): UserActiveModel {
    UserActiveModel(Unchanged(u.id), Unchanged(u.name), Unchanged(u.username),
      Unchanged(u.email), Unchanged(u.password), Unchanged(u.dateCreated),
      Unchanged(u.dateUpdated))
  }

  /** `user::ActiveModel::from(request)`: the submitted columns are `Set`
      (the password through the conversion's `hash`), the key and the
      timestamps are left to the database. */
  function FromCreateRequest(r: CreateUserRequest, hash: string -> string): UserActiveModel {
    UserActiveModel(NotSet, Set(r.name), Set(r.username), Set(r.email),
      Set(hash(r.password)), NotSet, NotSet)
  }

  function Written<T>(v: ActiveValue<T>, current: T): T {
    if v.Set? then v.value else current
  }

  function Inserted<T>(v: ActiveValue<T>, default: T): T {
    if v.NotSet? then default else v.value
  }

  /** The row `update` leaves: `Set` columns are written, others keep their value. */
  function ApplyUpdate(u: User, am: UserActiveModel): User {
    User(u.id, Written(am.name, u.name), Written(am.username, u.username),
      Written(am.email, u.email), Written(am.password, u.password),
      Written(am.dateCreated, u.dateCreated), Written(am.dateUpdated, u.dateUpdated))
  }

  /** The row `insert` creates under key `id`; columns left `NotSet` take the
      table defaults (`CURRENT_TIMESTAMP`, read as `now`, and NULL). */
  function ApplyInsert(am: UserActiveModel, id: int, now: Timestamp): User {
    User(id, Inserted(am.name, ""), Inserted(am.username, ""), Inserted(am.email, ""),
      Inserted(am.password, ""), Inserted(am.dateCreated, now), Inserted(am.dateUpdated, None))
  }

  /** Inserting a user built from a create request stores the submitted
      fields, stamps the creation time and leaves the update time empty. */
  lemma InsertFromRequest(r: CreateUserRequest, hash: string -> string, id: int, now: Timestamp)
    ensures ApplyInsert(BeforeSave(FromCreateRequest(r, hash), true, now).value, id, now)
      == User(id, r.name, r.username, r.email, hash(r.password), now, None)
  {
  }

  /** Updating a loaded row in which some columns were `Set` stamps the
      update time and writes exactly those columns. */
  lemma UpdateStampsModification(u: User, name: string, now: Timestamp)
    ensures ApplyUpdate(u, BeforeSave(FromModel(u).(name := Set(name)), false, now).value)
      == u.(name := name, dateUpdated := Some(now))
  {
  }
}
