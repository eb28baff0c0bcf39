/** Request bodies of the user and auth routes. Their declarations and
    validation rules live in src/form/user_form.rs, which is not part of
    this model: the shapes below hold the fields the controllers read, and
    the rules are a parameter of the operations that call `validate()`. */
module UserForm {
  import opened Common
  import opened Errors

  datatype CreateUserRequest = CreateUserRequest(
    name: string,
    username: string,
    email: string,
    password: string,
    address: string,
    mobileNumber: string)

  datatype UpdateUserRequest = UpdateUserRequest(
    name: string,
    username: string,
    email: string,
    password: Option<string>)

  datatype UserLogin = UserLogin(username: string, password: string)

  /** The `validate()` rules of `CreateUserRequest` and `UpdateUserRequest`. */
  datatype UserRules = UserRules(
    create: CreateUserRequest -> Checked,
    update: UpdateUserRequest -> Checked)
}
