/** The edit dialog's state: `formData` filled from the todo being edited, `errors`, and its handlers. */
module EditTodoForm {
  import opened Wrappers
  import opened Calendar
  import opened Todos
  import opened FormFields

  class Form {
    var formData: FormData
    var errors: Errors

    ghost predicate Valid()
      reads this
    {
      Title in formData
    }

    /** The default form, before the todo is copied in. */
    constructor ()
      ensures Valid()
      ensures formData == EditDefaults() && errors == map[]
    {
      formData := EditDefaults();
      errors := map[];
    }

    /** The effect run when `todo` changes: a present todo replaces the whole form; errors are kept. */
    method SyncWithTodo(todo: Option<Todo>, dueText: Date -> string)
      requires Valid()
      modifies this`formData
      ensures Valid()
      ensures todo.Some? ==> formData == FromTodo(todo.value, dueText)
      ensures todo.None? ==> formData == old(formData)
    {
      if todo.Some? {
        formData := FromTodo(todo.value, dueText);
      }
    }

    /** `handleChange`: the named field takes the input's value, and its error, if set, is blanked. */
    method HandleChange(name: FieldName, value: string)
      requires Valid()
      modifies this
      ensures Valid()
      ensures formData == old(formData)[name := value]
      ensures errors == ClearedError(old(errors), name)
    {
      formData := formData[name := value];
      if name in errors && errors[name] != "" {
        errors := errors[name := ""];
      }
    }

    /** `validateForm`: the same checks as the add form. */
    method ValidateForm(isPast: string -> bool) returns (ok: bool)
      requires Valid()
      modifies this`errors
      ensures errors == ValidationErrors(formData, isPast)
      ensures ok <==> errors == map[]
    {
      var newErrors, valid := CollectErrors(formData, isPast);
      errors := newErrors;
      ok := valid;
    }

    /** `handleSubmit`: a valid form, status included, is handed to `onSubmit`; the form is not reset. */
    method HandleSubmit(isPast: string -> bool) returns (submitted: Option<FormData>)
      requires Valid()
      modifies this`errors
      ensures ValidationErrors(formData, isPast) == map[] ==> submitted == Some(formData)
      ensures ValidationErrors(formData, isPast) != map[] ==> submitted == None
      ensures errors == ValidationErrors(formData, isPast)
    {
      var ok := ValidateForm(isPast);
      if ok {
        submitted := Some(formData);
      } else {
        submitted := None;
      }
    }
  }
}
