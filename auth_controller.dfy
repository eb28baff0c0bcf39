/** The authentication routes (src/controller/auth_controller.rs). Password
    verification (`verify_password`) and token minting (`create_user_token`)
    live outside this model and are parameters. */
module AuthController {
  import opened Common
  import opened Errors
  import opened Entities
  import opened UserForm
  import opened Serializer
  import opened Store
  import UserController

  const USER_NOT_FOUND := "User not found."
  const INVALID_USER := "Invalid user"

  /** Token lifetimes, in minutes. */
  const ACCESS_MINUTES: nat := 10
  const REFRESH_MINUTES: nat := 1440

  datatype UserToken = UserToken(accessToken: string, refreshToken: Option<string>)

  /** `user::Entity::find().filter(username = ..).one()`: the first user in
      table order with that username (the column is not unique). */
  function UserByUsername(users: seq<User>, username: string): (r: Option<nat>)
    ensures r.Some? ==> r.value < |users| && users[r.value].username == username
    ensures r.Some? ==> forall k :: 0 <= k < r.value ==> users[k].username != username
    ensures r.None? <==> forall k :: 0 <= k < |users| ==> users[k].username != username
  {
    FindIndex(users, (u: User) => u.username == username)
  }

  /** `login`: an unknown username and a rejected password are both
      `GenericError`s; a verifier error is passed on; otherwise an access
      token (10 minutes) and a refresh token (1440 minutes) are minted for
      the user's email. */
  method Login(db: Db, payload: UserLogin, verify: (string, string) -> Result<bool, AppError>,
               createToken: (string, nat) -> string)
    returns (r: Outcome<UserToken>)
    ensures !r.Panic?
    ensures UserByUsername(db.users, payload.username).None? ==> r == Err(GenericError(USER_NOT_FOUND))
    ensures UserByUsername(db.users, payload.username).Some? ==>
      var u := db.users[UserByUsername(db.users, payload.username).value];
      match verify(u.password, payload.password)
      case Failure(e) => r == Err(e)
      case Success(ok) =>
        if ok then r == Ok(UserToken(createToken(u.email, ACCESS_MINUTES), Some(createToken(u.email, REFRESH_MINUTES))))
        else r == Err(GenericError(INVALID_USER))
  {
    var found := UserByUsername(db.users, payload.username);
    if found.None? {
      return Err(GenericError(USER_NOT_FOUND));
    }
    var user := db.users[found.value];
    var verified := verify(user.password, payload.password);
    if verified.Failure? {
      return Err(verified.error);
    }
    if !verified.value {
      return Err(GenericError(INVALID_USER));
    }
    var accessToken := createToken(user.email, ACCESS_MINUTES);
    var refreshToken := createToken(user.email, REFRESH_MINUTES);
    r := Ok(UserToken(accessToken, Some(refreshToken)));
  }

  /** `register`: the same validation and the same user-and-profile
      transaction as `create_user`. */
  method Register(db: Db, payload: CreateUserRequest, rules: UserRules, hash: string -> string, now: Timestamp, fault: Fault, show: Timestamp -> string)
    returns (r: Outcome<UserWithProfileSerializer>)
    requires db.Valid()
    modifies db
    ensures db.Valid()
    ensures !r.Ok? ==> unchanged(db)
    ensures |db.users| - |old(db.users)| == |db.profiles| - |old(db.profiles)|
    ensures rules.create(payload).Failed? ==> r == Err(Validation(rules.create(payload).errors))
    ensures var u := User(old(db.nextUserId), payload.name, payload.username, payload.email, hash(payload.password), now, None);
      var p := UserProfile(old(db.nextProfileId), u.id, Some(payload.address), Some(payload.mobileNumber));
      rules.create(payload).Passed? ==>
        if Rejection(fault, Insert(UserTable)).Some? then r == Err(GenericError(DbErrText(Rejection(fault, Insert(UserTable)).value)))
        else if Rejection(fault, Insert(ProfileTable)).Some? then r == Err(GenericError(DbErrText(Rejection(fault, Insert(ProfileTable)).value)))
        else
          && r == Ok(SerializeUserWithProfile((u, Some(p)), show))
          && db.users == old(db.users) + [u]
          && db.profiles == old(db.profiles) + [p]
          && db.nextUserId == old(db.nextUserId) + 1
          && db.nextProfileId == old(db.nextProfileId) + 1
          && db.tasks == old(db.tasks) && db.labels == old(db.labels) && db.taskLabels == old(db.taskLabels)
          && db.nextTaskId == old(db.nextTaskId) && db.nextLabelId == old(db.nextLabelId)
          && db.nextTaskLabelId == old(db.nextTaskLabelId)
  {
    r := UserController.CreateUser(db, payload, rules, hash, now, fault, show);
  }
}
