/** Request bodies of the task routes and their `validate()` rules
    (src/form/task_form.rs). The controller also reads `labels` and
    `due_date` from the create and update bodies, so both records carry
    them. */
module TaskForm {
  import opened Entities
  import opened Common
  import opened Errors

  /** `#[validate(length(min = 3, message = ...))]` bound and message. */
  const MIN_LENGTH: nat := 3
  const LENGTH_MESSAGE := "Must have at least 3 characters"

  datatype CreateTaskRequest = CreateTaskRequest(
    title: string,
    description: string,
    status: string,
    priority: string,
    dueDate: Option<Timestamp>,
    labels: seq<string>)

  datatype UpdateTaskRequest = UpdateTaskRequest(
    title: string,
    description: Option<string>,
    status: string,
    dueDate: Option<Timestamp>,
    labels: seq<string>)

  datatype UpdateTaskStatusRequest = UpdateTaskStatusRequest(status: string)

  datatype UpdateTaskPriorityRequest = UpdateTaskPriorityRequest(priority: string)

  /** The `length(min = 3)` rule on one string field: the character count,
      as the `validator` crate measures it, must reach the bound. */
  function LengthRule(field: string, value: string): (r: seq<FieldError>)
    ensures r == [] <==> |value| >= MIN_LENGTH
    ensures r != [] ==> r == [FieldError(field, "length", LENGTH_MESSAGE)]
  {
    if |value| >= MIN_LENGTH then [] else [FieldError(field, "length", LENGTH_MESSAGE)]
  }

  function Check(errors: seq<FieldError>): (r: Checked)
    ensures r.Passed? <==> errors == []
    ensures r.Failed? ==> r.errors.fields == errors
  {
    if errors == [] then Passed else Failed(ValidationErrors(errors))
  }

  function ValidateCreateTask(r: CreateTaskRequest): Checked {
    Check(LengthRule("title", r.title))
  }

  function ValidateUpdateTask(r: UpdateTaskRequest): Checked {
    Check(LengthRule("title", r.title))
  }

  function ValidateUpdateTaskStatus(r: UpdateTaskStatusRequest): Checked {
    Check(LengthRule("status", r.status))
  }

  function ValidateUpdateTaskPriority(r: UpdateTaskPriorityRequest): Checked {
    Check(LengthRule("priority", r.priority))
  }

  /** Only the title decides a create request; description, status, priority,
      due date and labels are unconstrained, and the bound is inclusive. */
  lemma CreateTaskRule(r: CreateTaskRequest, other: CreateTaskRequest)
    requires other.title == r.title
    ensures ValidateCreateTask(r).Passed? <==> |r.title| >= 3
    ensures ValidateCreateTask(other) == ValidateCreateTask(r)
    ensures ValidateCreateTask(r).Failed? ==>
      ValidateCreateTask(r).errors.fields == [FieldError("title", "length", "Must have at least 3 characters")]
  {
  }

  /** An update request is decided by its title alone; a missing description passes. */
  lemma UpdateTaskRule(r: UpdateTaskRequest)
    ensures ValidateUpdateTask(r).Passed? <==> |r.title| >= 3
    ensures ValidateUpdateTask(r.(description := None)) == ValidateUpdateTask(r)
  {
  }

  lemma UpdateTaskStatusRule(r: UpdateTaskStatusRequest)
    ensures ValidateUpdateTaskStatus(r).Passed? <==> |r.status| >= 3
    ensures ValidateUpdateTaskStatus(r).Failed? ==> ValidateUpdateTaskStatus(r).errors.fields[0].field == "status"
  {
  }

  lemma UpdateTaskPriorityRule(r: UpdateTaskPriorityRequest)
    ensures ValidateUpdateTaskPriority(r).Passed? <==> |r.priority| >= 3
    ensures ValidateUpdateTaskPriority(r).Failed? ==> ValidateUpdateTaskPriority(r).errors.fields[0].field == "priority"
  {
  }

  /** The boundary: three characters pass, two fail. */
  lemma LengthBoundary()
    ensures ValidateCreateTask(CreateTaskRequest("abc", "", "", "", None, [])).Passed?
    ensures ValidateCreateTask(CreateTaskRequest("ab", "", "", "", None, [])).Failed?
    ensures ValidateUpdateTaskStatus(UpdateTaskStatusRequest("low")).Passed?
    ensures ValidateUpdateTaskPriority(UpdateTaskPriorityRequest("hi")).Failed?
  {
  }
}
