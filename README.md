# Rust-Task-App handlers, modelled in Dafny

This project models the HTTP core of Rust-Task-App. The application is an axum
and SeaORM service in which users hold tasks, and each task carries labels
through a join table. The model covers:

- the four controllers (tasks, users, labels, authentication);
- the bearer-token middleware;
- the user save hook;
- the request forms with their validation rules;
- the response serializers;
- the mapping of application errors to HTTP replies.

The database is a `Store.Db` object with one `seq` field per table and one
key counter per table. `Db.Valid()` states the schema's constraints:

- keys increase in table order and stay below the counter;
- `task.uuid` is unique;
- a task's status is one of `pending`, `in_progress`, `completed` and its
  priority one of `low`, `medium`, `high` (the column CHECKs of the task
  migration);
- a user's label titles are unique (`title__user_id__unique_key`);
- the foreign keys from profiles, tasks and labels to users, and from join
  rows to tasks and labels, hold.

`Db.Valid()` also demands that every join row links a task and a label of the
same owner. No migration declares this. It is an application invariant: the
handlers only ever attach the caller's own labels to the caller's own task,
and the contracts prove that every handler keeps it.

Each handler is a method over the store. It returns an `Outcome`: a value, an
`AppError`, or a Rust panic (an integer underflow, an `unwrap` on `None`, a
`todo!()`). Each method's `ensures` gives:

- the complete reply for every branch of the source;
- the complete new state of the store;
- that a failed transaction leaves the store unchanged.

By SeaORM's semantics, the queries become functions on the tables:

- `find_related` through a foreign key is a filter;
- the task–label relation goes through the join table;
- `.one()` yields the first match;
- `find_also_related` is a LEFT JOIN;
- `paginate(..).fetch_page(i)` is `LIMIT size OFFSET size * i`.

The database can also reject a statement for reasons the tables do not show,
such as a lock or a lost connection. A `Fault` parameter
names the one write statement rejected this way, together with its error.
The model itself derives constraint violations (CHECKs, unique keys, foreign
keys) from the tables and the written values. SQLite checks CHECK
constraints before UNIQUE, and UNIQUE before FOREIGN KEY, so the model does
too. An UPDATE meets only the CHECKs of the columns it writes.

Things outside the repository are parameters:

- the clock;
- the uuid generator;
- the password hash and its verification;
- JWT minting and verification;
- the rendering of timestamps;
- the `PER_PAGE` environment variable;
- `ResponseMetadata::new`;
- the `validator` rules of the user forms (their file is not part of this
  model).

The Display texts of sea-orm, sqlx and SQLite errors are not in the
repository either. The model uses their published formats (`Errors.DbErrText`,
`Store.UNIQUE_TASK_UUID`, `Store.FOREIGN_KEY_FAILED`).

Modules, one per file:

- `Common` holds Option/Result, Filter, FindIndex, FindFirst and substring
  search;
- `Errors`: src/error.rs;
- `Entities`: the rows;
- `TaskForm`, `LabelForm`, `UserForm`: the request bodies;
- `UserHook`: src/models/user.rs;
- `Serializer`: src/serializer.rs;
- `Pagination`: page parsing, ordering and the page window;
- `Store`: tables, constraints, queries, cascades;
- `AuthGuard`: src/middlewares/auth_guard.rs;
- `TaskController`, `UserController`, `LabelController` and
  `AuthController`: the four controllers.

## Model

| member | source | states |
|---|---|---|
| Errors.IntoResponseTotality | src/error.rs:28-59 | the reply mapping panics exactly on `RuntimeErr::Internal` (the `todo!()` arm); every other error becomes a reply with status 400, 401, 404 or 500 |
| Errors.ServerErrorHidesDetail | src/error.rs:34-42 | status 500 arises exactly from a non-database sqlx failure, and its message is the fixed text "Error" |
| Errors.ConvertedErrorReplies | src/error.rs:16-50 | errors raised through `?` keep their message: RecordNotFound gives 404, a database rejection 400, GenericError 400, Unauthorized 401 |
| Errors.OtherDbErrIsNotFound | src/error.rs:45 | every other `DbErr` is reported as 404 with its own text |
| Errors.ValidationReplyCarriesMessages | src/error.rs:47-49 | a validation failure is a 400 whose message contains the message of every failed rule |
| TaskForm.LengthRule | src/form/task_form.rs:9 | the `length(min = 3)` rule passes exactly when the field has at least 3 characters, and otherwise yields that field's single error with the form's message |
| TaskForm.CreateTaskRule | src/form/task_form.rs:7-15 | a create body is valid iff its title has at least 3 characters; no other field affects validation |
| TaskForm.UpdateTaskRule | src/form/task_form.rs:17-23 | an update body is valid iff its title has at least 3 characters; the optional description does not matter |
| TaskForm.UpdateTaskStatusRule | src/form/task_form.rs:25-29 | a status body is valid iff the status has at least 3 characters; the error names the field `status` |
| TaskForm.UpdateTaskPriorityRule | src/form/task_form.rs:31-35 | a priority body is valid iff the priority has at least 3 characters; the error names the field `priority` |
| TaskForm.LengthBoundary | src/form/task_form.rs:9 | the bound is inclusive: 3 characters pass and 2 fail |
| LabelForm.LabelTitleRule | src/form/label_form.rs:7-17 | both label bodies are valid iff the title has at least 3 characters, and they validate identically |
| LabelForm.LabelTitleBoundary | src/form/label_form.rs:9 | "abc" passes and "ab" fails |
| UserHook.BeforeSave | src/models/user.rs:7-24 | the hook never fails; an insert never touches `date_updated`, an update never touches `date_created`, and no other column changes |
| UserHook.BeforeSaveCases | src/models/user.rs:13-23 | an insert with `date_created` unset stamps it with now; an update whose `date_updated` is unchanged stamps it with `Some(now)`; otherwise the model is returned as is |
| UserHook.BeforeSaveIdempotent | src/models/user.rs:13-23 | running the hook again, at any later instant, changes nothing |
| UserHook.InsertFromRequest | src/models/user.rs:13-16 | inserting a user built from a create request stores the submitted fields and the hashed password, created now and never updated |
| UserHook.UpdateStampsModification | src/models/user.rs:17-20 | updating a loaded row stamps `date_updated` with now and keeps the key and creation time |
| Serializer.ShowOpt | src/serializer.rs:23 | an optional timestamp is rendered exactly when present |
| Serializer.SerializeUser | src/serializer.rs:15-26 | the user projection keeps id, name, username, email and whether the user was updated |
| Serializer.SerializeProfile | src/serializer.rs:35-43 | the profile projection keeps id, address and mobile number |
| Serializer.SerializeUserWithProfile | src/serializer.rs:56-72 | the row projection keeps the user's fields, and has a profile exactly when the joined row has one, projected field by field |
| Serializer.SerializeTask | src/serializer.rs:87-101 | the task projection keeps id, title, description, status, priority, uuid, and the presence of the due and update dates |
| Serializer.SerializeLabel | src/serializer.rs:115-122 | the label projection keeps id and title |
| Serializer.SerializeLabels | src/controller/task_controller.rs:163-169 | the label list is projected element by element, preserving length and order |
| Serializer.SerializeTasks | src/controller/task_controller.rs:71-73 | the task list is projected element by element, preserving length and order |
| Serializer.SerializeRows | src/controller/user_controller.rs:72-74 | the joined rows are projected element by element, preserving length and order |
| Serializer.PasswordNotSerialized | src/serializer.rs:5-26 | no response depends on the password: users differing only in it serialize identically |
| Serializer.OwnerNotSerialized | src/serializer.rs:74-122 | `TaskSerializer` and `LabelSerializer` drop the owner: tasks, and labels shown through a task, serialize the same whatever their `user_id` (the label routes return `label::Model` itself, owner included) |
| Serializer.LabelProjectionKeepsIdentity | src/serializer.rs:109-122 | two labels with the same projection differ at most in their owner |
| AuthGuard.ToStr | src/middlewares/auth_guard.rs:19 | a header value is text exactly when every byte is visible ASCII or tab, and the text has the same characters |
| AuthGuard.StripPrefix | src/middlewares/auth_guard.rs:20 | stripping succeeds exactly when the string starts with the prefix, and the prefix plus the rest is the string |
| AuthGuard.ExtractToken | src/middlewares/auth_guard.rs:16-23 | a token is found iff the header is present, is text and starts with `Bearer `, and the token is what follows the prefix; otherwise the error is Unauthorized with the credentials message |
| AuthGuard.ExtractTokenRoundTrip | src/middlewares/auth_guard.rs:16-23 | a printable token sent as `Bearer <token>` is recovered exactly |
| AuthGuard.PrefixIsExact | src/middlewares/auth_guard.rs:20 | the prefix is case-sensitive and needs its space; `Bearer ` alone yields the empty token |
| AuthGuard.Guard | src/middlewares/auth_guard.rs:11-32 | an extraction or verification failure is returned without calling the next handler; otherwise the verified user is attached to the request and the next handler's response is returned |
| Pagination.ParseDecimal | src/controller/task_controller.rs:51-54 | `parse::<u64>` inverts decimal rendering on the u64 range and accepts a leading `+` |
| Pagination.ParseRejects | src/controller/task_controller.rs:51-54 | empty, negative, sign-only and non-numeric pages are rejected |
| Pagination.ParsePageDefaults | src/controller/task_controller.rs:51-54 | a missing or unparsable page is page 1, and a decimal page is taken as is |
| Pagination.PageIndex | src/controller/task_controller.rs:69 | `page - 1` on u64 underflows exactly at page 0, and otherwise is the predecessor |
| Pagination.FlooredPageIndex | src/controller/task_controller.rs:69 | the intended index agrees with `page - 1` from page 1 on and maps page 0 to the first page |
| Pagination.PageZeroUnderflows | src/controller/task_controller.rs:51-69 | `?page=0` parses and reaches the underflowing subtraction; with the floor it would equal the default page |
| Pagination.DivCeilBounds | src/controller/task_controller.rs:61 | `total_page` is the least page count of size d that holds n rows, and is 0 iff there are no rows |
| Pagination.ListMeta | src/controller/task_controller.rs:58-64 | metadata carries the count, page size 10, `total_page` equal to `div_ceil(count, 10)` (so 0 for no rows, and otherwise the least page count holding them), and the request URI |
| Pagination.SortDescCorrect | src/controller/task_controller.rs:67 | `ORDER BY date_created DESC` yields a descending permutation of the rows |
| Pagination.FetchPage | src/controller/task_controller.rs:68-69 | a page has at most `size` rows; row k of page i is row `size * i + k`; a page lying wholly within the rows is full |
| Pagination.PastLastPageEmpty | src/controller/task_controller.rs:68-69 | a page is empty exactly when its index is at least the total page count |
| Pagination.PageOfSorted | src/controller/task_controller.rs:66-69 | a page of an ordered listing is ordered and holds rows of the listing |
| Pagination.PagesCoverAll | src/controller/user_controller.rs:198-210 | reading pages 1 to `total_page` in turn yields every row once, in order |
| Store.Db.constructor | migration/src/lib.rs:10-17 | a freshly migrated database is valid, empty, with every key counter at 1 |
| Store.ConstraintError | src/error.rs:36-39 | a constraint violation reaches the client as a 400 carrying the database's message |
| Store.StatusCheckError | migration/src/m20220101_000001_create_task_table.rs:18-24 | a status fails the CHECK exactly when it is not `pending`, `in_progress` or `completed`, with SQLite's CHECK message |
| Store.PriorityCheckError | migration/src/m20220101_000001_create_task_table.rs:25-37 | a priority fails the CHECK exactly when it is not `low`, `medium` or `high`, with SQLite's CHECK message |
| Store.ShortValuesFailCheck | migration/src/m20220101_000001_create_task_table.rs:18-37 | every value shorter than three characters fails both CHECKs: whatever the `length(min = 3)` rules reject, the schema refuses too |
| Store.UserIndex | src/controller/user_controller.rs:136-139 | `find_by_id` finds the user with that key, and finds none exactly when no user has it |
| Store.OwnedTaskIndex | src/controller/task_controller.rs:140-145 | the caller's task with that uuid, and none exactly when the caller has none |
| Store.OwnedLabelIndex | src/controller/label_controller.rs:71-76 | the caller's label with that key, and none exactly when the caller has none |
| Store.TasksOf | src/controller/task_controller.rs:45 | `find_related(task)` is exactly the caller's tasks |
| Store.OwnedLabelsTitled | src/controller/task_controller.rs:107-111 | exactly the caller's labels whose title is listed, and none for an empty list (`is_in([])`) |
| Store.LabelById | migration/src/m20241231_055020_create_task_label_map_table.rs:25-30 | the label a join row points to, found exactly when its key exists |
| Store.RelatedLabels | src/controller/task_controller.rs:163-166 | every label `task.find_related(label)` returns is a label the task has a join row to |
| Store.RelatedLabelsComplete | src/controller/task_controller.rs:163-166 | every join row of the task contributes its label |
| Store.RelatedOfJoinRows | src/controller/task_controller.rs:113-124 | the new join rows of a task associate it with exactly the labels they were made from, in order |
| Store.JoinRows | src/controller/task_controller.rs:113-117 | one join row per label, for the task, with consecutive new keys |
| Store.ProfilesOf | src/controller/user_controller.rs:39 | exactly the profiles of a user |
| Store.JoinedRows | src/controller/user_controller.rs:39 | the LEFT JOIN rows of a user: at least one, each carrying the user, with a profile of theirs or none when the user has none |
| Store.WithProfiles | src/controller/user_controller.rs:39 | `find_also_related` yields at least one row per user, each carrying a user of the table |
| Store.WithProfilesFilter | src/controller/user_controller.rs:39-51 | filters on user columns commute with the LEFT JOIN |
| Store.FirstProfile | src/controller/user_controller.rs:84-87 | the profile the first joined row carries: one of the user's, or none exactly when the user has none |
| Store.UserRowAbsent | src/controller/user_controller.rs:84-88 | `find_by_id(..).find_also_related(..).one()` finds nothing for an unknown key |
| Store.UserRowPresent | src/controller/user_controller.rs:84-88 | for a known key it finds that user with their first profile |
| Store.SingleProfileRow | src/controller/user_controller.rs:39 | a user with exactly one profile yields one row, carrying it |
| Store.WithoutUser | src/controller/user_controller.rs:165-167 | deleting by key keeps exactly the users with another key |
| Store.WithoutTask | src/controller/task_controller.rs:263 | deleting the task keeps exactly the tasks with another key |
| Store.WithoutLabel | src/controller/label_controller.rs:127 | deleting the label keeps exactly the labels with another key |
| Store.TasksNotOf | migration/src/m20220101_000001_create_task_table.rs:46-52 | the cascade from users keeps exactly the tasks of other users |
| Store.LabelsNotOf | migration/src/m20241231_054040_create_label_table.rs:25-30 | the cascade from users keeps exactly the labels of other users |
| Store.ProfilesNotOf | src/controller/user_controller.rs:165-167 | the cascade from users keeps exactly the profiles of other users |
| Store.JoinsAmong | migration/src/m20241231_055020_create_task_label_map_table.rs:17-30 | the cascade into the join table keeps exactly the join rows whose task and label both remain |
| TaskController.MatchingTasks | src/controller/task_controller.rs:45-49 | exactly the caller's tasks with the requested status, or all the caller's tasks when no status is given |
| TaskController.TaskQueryMeaning | src/controller/task_controller.rs:45-49 | the query built step by step equals that specification |
| TaskController.GetTasks | src/controller/task_controller.rs:39-76 | page 0 panics; otherwise the metadata counts all matches, and the items are page `page - 1` of 10 of the matches ordered newest first |
| TaskController.TaskPageContents | src/controller/task_controller.rs:66-73 | a page holds at most 10 of the caller's matching tasks, newest first, and is empty exactly past the last page |
| TaskController.TaskInsertError | migration/src/m20220101_000001_create_task_table.rs:18-52 | the task insert fails first on the status CHECK, then on the priority CHECK, and succeeds only with admitted status and priority, a fresh uuid, an existing owner and no injected rejection |
| TaskController.JoinInsertError | src/controller/task_controller.rs:120-124 | no `insert_many` is issued, so none can fail, when there are no join rows |
| TaskController.CreateTask | src/controller/task_controller.rs:79-133 | validation errors come first; then one transaction appends the task and one join row per requested label of the caller, or on any failure keeps the store unchanged and reports GenericError with the error text |
| TaskController.CreatedTaskLabels | src/controller/task_controller.rs:107-124 | after a create, the task's labels are exactly the caller's labels with a requested title |
| TaskController.GetTask | src/controller/task_controller.rs:135-149 | the caller's task with that uuid, or "Task not found." exactly when the caller has none |
| TaskController.GetTaskFullDetails | src/controller/task_controller.rs:151-177 | the caller's task with the labels its join rows point to, or "Task not found." |
| TaskController.AssignedTitles | src/controller/task_controller.rs:193-200 | the task's label titles that the payload lists, and only those |
| TaskController.UnassignedTitles | src/controller/task_controller.rs:202-206 | exactly the requested titles not already assigned |
| TaskController.CandidatesAsWritten | src/controller/task_controller.rs:208-212 | the written candidate query filters on the task's own title: it yields all the task's current labels when the title is among the unassigned titles, and none otherwise |
| TaskController.CommitTaskUpdate | src/controller/task_controller.rs:223-244 | the update transaction inserts the candidates' join rows, then writes title, description, status and a supplied due date; a failure, the `unwrap` panic or a status outside the CHECK leaves the store unchanged |
| TaskController.UpdateTask | src/controller/task_controller.rs:179-249 | `update_task` as written: "Task not found." for another user's uuid, otherwise the transaction above with the written candidates, the join key counter advanced by the rows added and every other counter unchanged; no validation |
| TaskController.UpdateTaskIntended | src/controller/task_controller.rs:179-249 | the same handler with the evidently intended candidates: the caller's labels whose titles are requested and unassigned; counters as in `UpdateTask` |
| TaskController.RelatedLabelsOwned | src/controller/task_controller.rs:107-118 | every label a task is associated with belongs to the task's owner |
| TaskController.AsWrittenAddsNoNewLabel | src/controller/task_controller.rs:208-221 | as written, every new join row repeats a label the task already has |
| TaskController.AsWrittenCounterexample | src/controller/task_controller.rs:193-221 | a concrete store where a requested label of the caller is not attached, and where requesting the task's title duplicates an existing join row |
| TaskController.IntendedAttachesRequested | src/controller/task_controller.rs:193-221 | with the intended query, every requested label of the owner is associated after the update, and no new row repeats an existing association |
| TaskController.SameTitleSameLabel | migration/src/m20241231_054040_create_label_table.rs:18-23 | a user has at most one label with a given title |
| TaskController.DeleteTask | src/controller/task_controller.rs:251-271 | deletes the caller's task with that uuid and its join rows, or "Task not found."; nothing else changes, key counters included |
| TaskController.DeleteTaskRemovesOnlyIt | src/controller/task_controller.rs:263 | exactly one task goes, and a join row goes exactly when it belongs to that task |
| TaskController.UpdateTaskStatus | src/controller/task_controller.rs:273-292 | writes the status of the caller's task and nothing else, key counters included, or "Task not found."; the handler does not validate, but a value outside the CHECK is refused as a 400 database error and writes nothing, so a payload the form rule rejects never succeeds |
| TaskController.UpdateTaskPriority | src/controller/task_controller.rs:294-313 | writes the priority of the caller's task and nothing else, key counters included, or "Task not found."; the handler does not validate, but a value outside the CHECK is refused as a 400 database error and writes nothing, so a payload the form rule rejects never succeeds |
| UserController.MatchingUsers | src/controller/user_controller.rs:41-51 | exactly the users whose name, username and email contain each given filter |
| UserController.StagesMeaning | src/controller/user_controller.rs:41-51 | the three optional `contains` stages together equal one filter on the joined rows |
| UserController.UserQueryMeaning | src/controller/user_controller.rs:39-51 | the filtered join equals the join of the matching users |
| UserController.GetUsers | src/controller/user_controller.rs:34-78 | page 0 panics; otherwise the metadata counts the matching joined rows, and the items are page `page - 1` of 10 of them, newest user first |
| UserController.UserCountCountsRows | src/controller/user_controller.rs:58 | the count counts joined rows, so it is at least the number of matching users |
| UserController.NoFilterListsEveryone | src/controller/user_controller.rs:41-51 | without filter keys every user matches |
| UserController.GetUser | src/controller/user_controller.rs:81-93 | the user with that key and their first profile, or "User not found." exactly when the key is unknown |
| UserController.NewUser | src/controller/user_controller.rs:105-107 | the inserted user carries the submitted fields, the hashed password and the creation time, and no update time |
| UserController.CreateUser | src/controller/user_controller.rs:96-128 | validation errors come first; then the user and its profile are inserted together or not at all, and any failure is a GenericError with the database error's text |
| UserController.CreatedUserIsFound | src/controller/user_controller.rs:81-128 | a user created with its profile is found by `get_user` with that profile |
| UserController.UpdateUser | src/controller/user_controller.rs:131-158 | lookup first, then validation, then one update of name, username, email and a supplied password, stamping `date_updated`; other tables and every key counter are unchanged |
| UserController.UpdateKeepsIdentity | src/controller/user_controller.rs:145-155 | the update keeps key and creation time, and the password when none is supplied |
| UserController.DeleteUser | src/controller/user_controller.rs:161-175 | deletes by key and reports success even when no user had it; the user's profiles, tasks, labels and their join rows cascade; key counters are unchanged |
| UserController.DeleteAbsentUserChangesNothing | src/controller/user_controller.rs:165-174 | deleting an unknown key leaves every table as it was: users, profiles, tasks, labels and join rows |
| UserController.PerPage | src/controller/user_controller.rs:200-203 | the page size is `PER_PAGE` when it parses as u64, and 10 otherwise |
| UserController.GetUserTasks | src/controller/user_controller.rs:178-218 | "User not found." for an unknown key; page 0 panics; otherwise the user's tasks are counted and page `page - 1` of them is returned |
| UserController.UserTaskPagesCoverAll | src/controller/user_controller.rs:187-210 | the pages together list every task of the user once, in order |
| LabelController.GetLabels | src/controller/label_controller.rs:31-37 | every label of every user, in table order |
| LabelController.ExistingLabel | src/controller/label_controller.rs:47-51 | the caller's label with that title, and none exactly when there is none |
| LabelController.ConflictingLabel | src/controller/label_controller.rs:96-101 | a rename conflicts exactly when the title differs from the current one and the caller has a label with it |
| LabelController.LabelInsertError | migration/src/m20241231_054040_create_label_table.rs:25-30 | the label insert succeeds only for an existing owner |
| LabelController.CreateLabel | src/controller/label_controller.rs:40-63 | validation, then "Label already exists." for a duplicate title, then the insert of a label owned by the caller; only the label key counter advances |
| LabelController.GetLabel | src/controller/label_controller.rs:66-79 | the caller's label with that key, or "Label not found." exactly when there is none |
| LabelController.UpdateLabel | src/controller/label_controller.rs:81-113 | validation, lookup, conflict check, then only the title changes; uniqueness of titles is kept and key counters are unchanged |
| LabelController.TitleStaysUnique | migration/src/m20241231_054040_create_label_table.rs:18-23 | the caller's label with a given title is the only one the duplicate check can find |
| LabelController.DeleteLabel | src/controller/label_controller.rs:115-135 | deletes the caller's label and its join rows, or "Label not found."; key counters are unchanged |
| LabelController.DeleteLabelKeepsOthers | src/controller/label_controller.rs:127 | other labels and the join rows of other labels stay; the label's own join rows go |
| AuthController.UserByUsername | src/controller/auth_controller.rs:45-49 | the first user with that username, and none exactly when there is none |
| AuthController.Login | src/controller/auth_controller.rs:40-64 | unknown username: "User not found."; a verifier error is passed on; a rejected password: "Invalid user"; otherwise a 10-minute access token and a 1440-minute refresh token for the user's email |
| AuthController.Register | src/controller/auth_controller.rs:68-101 | same validation and same user-and-profile transaction as `create_user`: on success the user and profile key counters advance by one and the other three are unchanged |

## Left out

- The HTTP layer is left out: routing, JSON extraction and the response envelope (`JsonResponse`); a body the extractor rejects never reaches a handler. src/main.rs is not part of this model.
- `logout` has an empty body and is not modelled.
- Read queries do not fail in the model. Only write statements can be rejected, through the `Fault` parameter.
- Concurrency is left out: each handler runs alone, so interleaved requests and races between a read and the transaction that follows it are not captured.
- Timestamps are integers, and their rendering is a parameter. Time zones and chrono formats are not modelled.
- `ORDER BY date_created DESC` leaves ties to the database. The model keeps ties in table order. Rows without ORDER BY (`get_user_tasks`, `get_labels`, `find_related`) come back in table order.
- SQL `LIKE` for `contains` is modelled as exact substring search. Case folding and `%`/`_` inside the filter value are not modelled.
- The page offset `size * index` is unbounded. u64 overflow of the offset and of `page - 1` in a release build are not modelled. In a debug build the underflow is a panic, which is modelled.
- An `.env` `PER_PAGE` of 0 makes every page empty. `UserController.UserTaskPagesCoverAll` therefore requires a positive page size.
- `UserController.CreateUser`, `UserController.UpdateUser` and `AuthController.Register` take the user form's `validate()` as a parameter, because src/form/user_form.rs is not part of this model.
- There is no uniqueness of usernames or emails. The migrator in migration/src/lib.rs registers the user table without unique indexes.
- The user_profile migration is not part of this model: the cascade of profiles on user delete is assumed.
- The label and task_label migrations are not registered in migration/src/lib.rs. The model assumes the tables they describe, with their unique index and cascades.
- The `color` column of labels is not modelled.
- The text of a CHECK failure is SQLite's rendering of the constraint expression as sea-query writes it; the exact quoting is not part of the repository.
- TaskController.UpdateTask, TaskController.UpdateTaskIntended, TaskController.UpdateTaskStatus, TaskController.UpdateTaskPriority: the AFTER UPDATE trigger of the registered task migration (migration/src/m20220101_000001_create_task_table.rs:61-66) sets `date_updated` to the current time after every task update. The model does not run it: the stored task keeps the `date_updated` the handler wrote. The model's reply shows that same value; whether the reply from `update` reflects the trigger depends on how SeaORM reads the row back, which is not modelled.
- The Display texts of sea-orm, sqlx and SQLite errors follow those crates. They are not part of the repository.
- The password hash, password verification, JWT minting (`create_user_token`) and token verification (`verify_token`) are parameters. Their properties are not modelled.
- A header that occurs several times is reduced to its first value.
- src/form/task_form.rs declares no `labels` field, yet the controller reads `payload.labels`, and `update_task` reads `due_date`. The model's request records carry both fields, following the controller.

## Findings

| source | as written | input that shows it | evidently intended | confidence | as-written member | corrected member |
|---|---|---|---|---|---|---|
| src/controller/task_controller.rs:69 (also src/controller/user_controller.rs:71, 207) | `fetch_page(page - 1)` on a `u64` parsed from `?page=` | `?page=0` parses as 0, and `0 - 1` underflows: a panic in a debug build | page numbers start at 1, and page 0 is treated as the first page or rejected | not executed; high | Pagination.PageIndex, Pagination.PageZeroUnderflows | Pagination.FlooredPageIndex |
| src/controller/task_controller.rs:208-212 | the candidate labels are `task.find_related(label).filter(task::Column::Title.is_in(unassigned))`: the filter is on the task's own title, over labels the task already has | user 7 owns labels "urgent" (1) and "new" (2); task 5 "report" has "urgent". Payload labels ["urgent","new"] attach nothing. Payload ["report"] re-attaches "urgent", so its join row appears twice | attach the caller's labels whose titles are requested and not yet assigned | not executed; high | TaskController.UpdateTask, TaskController.AsWrittenCounterexample, TaskController.AsWrittenAddsNoNewLabel | TaskController.UpdateTaskIntended, TaskController.IntendedAttachesRequested |
