/**
 * The stand-alone new-task form of src/components/TaskForm.js: a draft that the
 * inputs edit and that a submit hands to `addTask` before resetting it.
 */
module TaskForm {
  import opened Wrappers
  import App

  /** The TaskForm component's own draft. */
  class Form {
    var task: App.Draft

    /** The draft starts empty, priority "media", category the first label if any. */
    constructor (categories: seq<string>)
      ensures task == App.DefaultDraft(categories)
    {
      task := App.DefaultDraft(categories);
    }

    /** `handleChange`: one field of the draft takes the typed value. */
    method HandleChange(field: App.DraftField, value: string)
      modifies this
      ensures task == App.WithDraftField(old(task), field, value)
    {
      task := App.WithDraftField(task, field, value);
    }

    /** `handleSubmit`, given the current `categories` prop: a blank title does
        nothing; otherwise the current draft is returned as the argument of
        `addTask` and the draft is reset. */
    method HandleSubmit(categories: seq<string>) returns (submitted: Option<App.Draft>)
      modifies this
      ensures App.IsBlank(old(task).title) ==> submitted == None && task == old(task)
      ensures !App.IsBlank(old(task).title) ==>
        submitted == Some(old(task)) && task == App.DefaultDraft(categories)
    {
      if App.IsBlank(task.title) {
        return None;
      }
      submitted := Some(task);
      task := App.DefaultDraft(categories);
    }
  }

  /** Submitting twice in a row hands `addTask` at most one draft: the reset draft
      has a blank title. */
  method SubmitTwice(form: Form, categories: seq<string>) returns (first: Option<App.Draft>, second: Option<App.Draft>)
    modifies form
    ensures first == if App.IsBlank(old(form.task).title) then None else Some(old(form.task))
    ensures second == None
    ensures first.Some? ==> form.task == App.DefaultDraft(categories)
    ensures first.None? ==> form.task == old(form.task)
  {
    first := form.HandleSubmit(categories);
    second := form.HandleSubmit(categories);
  }
}
