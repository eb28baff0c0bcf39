/** The application's error type and its mapping to an HTTP reply
    (src/error.rs), together with the outcome type every handler returns.

    The foreign error types are reduced to the variants the mapping tells
    apart: sea-orm's `DbErr` (RecordNotFound, Exec, everything else), its
    `RuntimeErr` (SqlxError, Internal) and sqlx's `Error` (Database, anything
    else). Their `Display` texts follow sea-orm 1.1 and sqlx: they are not
    part of the repository, and every variant the mapping does not inspect
    carries its own rendered text. */
module Errors {
  import Common

  datatype SqlxError = Database(message: string) | OtherSqlx(text: string)

  datatype RuntimeErr = SqlxError(error: SqlxError) | Internal(text: string)

  datatype DbErr = RecordNotFound(message: string) | Exec(runtime: RuntimeErr) | OtherDb(text: string)

  /** One failed field rule of the `validator` crate. */
  datatype FieldError = FieldError(field: string, code: string, message: string)

  datatype ValidationErrors = ValidationErrors(fields: seq<FieldError>)

  /** The result of `validate()`: `Ok(())` or the collected field errors. */
  datatype Checked = Passed | Failed(errors: ValidationErrors)

  datatype AppError =
    | GenericError(message: string)
    | SeaOrm(dbErr: DbErr)
    | Validation(errors: ValidationErrors)
    | Unauthorized(message: string)

  /** What a handler produces: a value, an application error, or a Rust
      panic (integer underflow, `unwrap` on `None`, `todo!()`), which ends
      the request without an `AppError`. */
  datatype Outcome<+T> = Ok(value: T) | Err(error: AppError) | Panic(reason: string)

  const SUBTRACT_OVERFLOW := "attempt to subtract with overflow"
  const UNWRAP_NONE := "called `Option::unwrap()` on a `None` value"
  const NOT_IMPLEMENTED := "not yet implemented"

  const BAD_REQUEST: nat := 400
  const UNAUTHORIZED: nat := 401
  const NOT_FOUND: nat := 404
  const INTERNAL_SERVER_ERROR: nat := 500

  /** The status and the error message of the JSON error reply, or the panic
      that `into_response` raises instead. */
  datatype Reply = Reply(status: nat, message: string) | Panicked(reason: string)

  /** `impl From<DbErr> for AppError`: the conversion `?` applies to store errors. */
  function FromDbErr(e: DbErr): AppError {
    SeaOrm(e)
  }

  /** `impl From<ValidationErrors> for AppError`. */
  function FromValidation(v: ValidationErrors): AppError {
    Validation(v)
  }

  function SqlxText(e: SqlxError): string {
    match e
    case Database(m) => "error returned from database: " + m
    case OtherSqlx(t) => t
  }

  function RuntimeText(e: RuntimeErr): string {
    match e
    case SqlxError(s) => SqlxText(s)
    case Internal(t) => t
  }

  /** `DbErr::to_string()`. */
  function DbErrText(e: DbErr): string {
    match e
    case RecordNotFound(m) => "RecordNotFound Error: " + m
    case Exec(rt) => "Execution Error: " + RuntimeText(rt)
    case OtherDb(t) => t
  }

  /** `ValidationErrors::to_string()`, one `field: message` line per failed rule. */
  function ValidationText(v: ValidationErrors): string {
    JoinLines(v.fields)
  }

  function JoinLines(fs: seq<FieldError>): string {
    if fs == [] then ""
    else if |fs| == 1 then fs[0].field + ": " + fs[0].message
    else fs[0].field + ": " + fs[0].message + "\n" + JoinLines(fs[1..])
  }

  /** `impl IntoResponse for AppError`: the status code and message of the reply. */
  function IntoResponse(e: AppError): Reply {
    match e
    case GenericError(m) => Reply(BAD_REQUEST, m)
    case SeaOrm(dbErr) =>
      (match dbErr
       case RecordNotFound(m) => Reply(NOT_FOUND, m)
       case Exec(rt) =>
         (match rt
          case SqlxError(Database(m)) => Reply(BAD_REQUEST, m)
          case SqlxError(OtherSqlx(_)) => Reply(INTERNAL_SERVER_ERROR, "Error")
          case Internal(_) => Panicked(NOT_IMPLEMENTED))
       case OtherDb(_) => Reply(NOT_FOUND, DbErrText(dbErr)))
    case Validation(v) => Reply(BAD_REQUEST, ValidationText(v))
    case Unauthorized(m) => Reply(UNAUTHORIZED, m)
  }

  /** The mapping is total except for `RuntimeErr::Internal`, whose arm is
      `todo!()`; every reply it does produce has one of four error statuses. */
  lemma IntoResponseTotality(e: AppError)
    ensures IntoResponse(e).Panicked? <==> e.SeaOrm? && e.dbErr.Exec? && e.dbErr.runtime.Internal?
    ensures IntoResponse(e).Reply? ==> IntoResponse(e).status in {BAD_REQUEST, UNAUTHORIZED, NOT_FOUND, INTERNAL_SERVER_ERROR}
  {
  }

  /** Only a non-database sqlx failure yields 500, and its reply hides the
      failure behind the fixed message "Error". */
  lemma ServerErrorHidesDetail(e: AppError)
    ensures IntoResponse(e).Reply? && IntoResponse(e).status == INTERNAL_SERVER_ERROR
      <==> e.SeaOrm? && e.dbErr.Exec? && e.dbErr.runtime.SqlxError? && e.dbErr.runtime.error.OtherSqlx?
    ensures IntoResponse(e).Reply? && IntoResponse(e).status == INTERNAL_SERVER_ERROR
      ==> IntoResponse(e).message == "Error"
  {
  }

  /** Errors the handlers raise through `?` keep their message on the way
      to the reply: not-found rows give 404, database rejections 400. */
  lemma ConvertedErrorReplies(m: string)
    ensures IntoResponse(FromDbErr(RecordNotFound(m))) == Reply(NOT_FOUND, m)
    ensures IntoResponse(FromDbErr(Exec(SqlxError(Database(m))))) == Reply(BAD_REQUEST, m)
    ensures IntoResponse(GenericError(m)) == Reply(BAD_REQUEST, m)
    ensures IntoResponse(Unauthorized(m)) == Reply(UNAUTHORIZED, m)
  {
  }

  /** Each other `DbErr` (`_` arm) is reported as 404 with its own text. */
  lemma OtherDbErrIsNotFound(t: string)
    ensures IntoResponse(FromDbErr(OtherDb(t))) == Reply(NOT_FOUND, t)
  {
  }

  /** A validation failure is a 400 carrying every failed rule's message. */
  lemma {:induction false} ValidationReplyCarriesMessages(v: ValidationErrors, k: nat)
    requires k < |v.fields|
    ensures IntoResponse(FromValidation(v)).status == BAD_REQUEST
    ensures Common.Contains(IntoResponse(FromValidation(v)).message, v.fields[k].message)
  {
    JoinLinesHasMessage(v.fields, k);
  }

  lemma {:induction false} JoinLinesHasMessage(fs: seq<FieldError>, k: nat)
    requires k < |fs|
    ensures Common.Contains(JoinLines(fs), fs[k].message)
  {
    var line := fs[0].field + ": " + fs[0].message;
    if k == 0 {
      var text := JoinLines(fs);
      var i := |fs[0].field + ": "|;
      assert text[i..i + |fs[0].message|] == fs[0].message;
      assert Common.OccursAt(text, fs[0].message, i);
      Common.ContainsIffOccurrence(text, fs[0].message);
    } else {
      JoinLinesHasMessage(fs[1..], k - 1);
      assert fs[1..][k - 1] == fs[k];
      Common.ContainsSuffix(line + "\n", JoinLines(fs[1..]), fs[k].message);
    }
  }

}
