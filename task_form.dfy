/** The task entry form (client/src/components/TaskForm.tsx): the title being
    typed, the trim-and-submit gate, the submit button's disabled state and the
    characters-remaining note. Submitting hands the trimmed title to the App's
    create handler. */
module TaskForm {
  import opened Wrappers
  import opened TaskSchema
  import opened JsString
  import App

  /** The input's `maxLength`. */
  const MaxTitleLength: nat := 200

  /** The note appears once the title is longer than this. */
  const NoteThreshold: nat := 180

  /** The submit button is disabled while submitting or while the trimmed title is empty. */
  function SubmitDisabled(isSubmitting: bool, title: string): (disabled: bool)
    ensures disabled <==> isSubmitting || AllWhitespace(title)
  {
    TrimEmptyIffAllWhitespace(title);
    isSubmitting || Trim(title) == []
  }

  /** The characters-remaining note: shown only past the threshold, counting down to the limit. */
  function RemainingNote(title: string): (note: Option<int>)
    ensures note.Some? <==> |title| > NoteThreshold
    ensures note.Some? ==> note.value + |title| == MaxTitleLength
    ensures note.Some? && |title| <= MaxTitleLength ==> 0 <= note.value < MaxTitleLength - NoteThreshold
  {
    if |title| > NoteThreshold then Some(MaxTitleLength - |title|) else None
  }

  /** What the form submits for a title, if anything: the trimmed title, or nothing when it is blank. */
  function SubmissionFor(title: string): (s: Option<CreateTaskInput>)
    ensures s.None? <==> AllWhitespace(title)
    ensures s.Some? ==> s.value.title == Trim(title)
  {
    TrimEmptyIffAllWhitespace(title);
    if Trim(title) == [] then None else Some(CreateTaskInput(Trim(title)))
  }

  /** Whatever the form submits passes the create schema, and has no whitespace at either end. */
  lemma SubmissionPassesSchema(title: string)
    requires !AllWhitespace(title)
    ensures var input := SubmissionFor(title).value;
      && ValidCreateInput(input)
      && ParseCreateInput(CreateInputObject(input)) == Success(input)
      && !IsWhitespace(input.title[0]) && !IsWhitespace(input.title[|input.title| - 1])
  {
    CreateInputRoundTrip(SubmissionFor(title).value);
  }

  /** An enabled button always leads to a submission. */
  lemma EnabledButtonSubmits(title: string)
    requires !SubmitDisabled(false, title)
    ensures SubmissionFor(title).Some?
  {
  }

  class FormState {
    var title: string

    constructor ()
      ensures title == ""
    {
      title := "";
    }

    /** The input's `onChange`: the state takes the field's value. */
    method OnChange(value: string)
      modifies this
      ensures title == value
    {
      title := value;
    }

    /** `handleSubmit`: a blank title submits nothing and keeps the state; otherwise the
        trimmed title goes to the App's create handler and the field is cleared after it returns. */
    method HandleSubmit(app: App.AppState, createTask: CreateTaskInput -> Result<Task, string>)
      returns (submitted: Option<CreateTaskInput>)
      modifies this, app
      ensures submitted == SubmissionFor(old(title))
      ensures submitted.None? ==> title == old(title) && unchanged(app)
      ensures submitted.Some? ==> title == ""
      ensures submitted.Some? && createTask(submitted.value).Success? ==>
        app.tasks == App.Prepend(createTask(submitted.value).value, old(app.tasks))
      ensures submitted.Some? && createTask(submitted.value).Failure? ==> app.tasks == old(app.tasks)
      ensures submitted.Some? ==> !app.isSubmitting && app.isLoading == old(app.isLoading)
    {
      var trimmed := Trim(title);
      if trimmed == [] {
        TrimEmptyIffAllWhitespace(title);
        return None;
      }
      submitted := Some(CreateTaskInput(trimmed));
      app.HandleCreateTask(submitted.value, createTask);
      title := "";
    }
  }
}
