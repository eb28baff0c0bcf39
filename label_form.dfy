/** Request bodies of the label routes and their `validate()` rules
    (src/form/label_form.rs). */
module LabelForm {
  import opened Errors
  import TaskForm

  datatype CreateLabelRequest = CreateLabelRequest(title: string)

  datatype UpdateLabelRequest = UpdateLabelRequest(title: string)

  function ValidateCreateLabel(r: CreateLabelRequest): Checked {
    TaskForm.Check(TaskForm.LengthRule("title", r.title))
  }

  function ValidateUpdateLabel(r: UpdateLabelRequest): Checked {
    TaskForm.Check(TaskForm.LengthRule("title", r.title))
  }

  /** Both label bodies are valid exactly when the title has at least three
      characters, and a short title fails with the rule's message. */
  lemma LabelTitleRule(title: string)
    ensures ValidateCreateLabel(CreateLabelRequest(title)).Passed? <==> |title| >= 3
    ensures ValidateUpdateLabel(UpdateLabelRequest(title)) == ValidateCreateLabel(CreateLabelRequest(title))
    ensures |title| < 3 ==>
      ValidateCreateLabel(CreateLabelRequest(title)) ==
      Failed(ValidationErrors([FieldError("title", "length", "Must have at least 3 characters")]))
  {
  }

  /** The bound is inclusive. */
  lemma LabelTitleBoundary()
    ensures ValidateCreateLabel(CreateLabelRequest("abc")).Passed?
    ensures ValidateUpdateLabel(UpdateLabelRequest("ab")).Failed?
  {
  }
}
