/** The add dialog's state: `formData` and `errors`, and its three handlers. */
module AddTodoForm {
  import opened Wrappers
  import opened FormFields

  class Form {
    var formData: FormData
    var errors: Errors

    ghost predicate Valid()
      reads this
    {
      Title in formData
    }

    /** The empty form with no errors. */
    constructor ()
      ensures Valid()
      ensures formData == AddDefaults() && errors == map[]
    {
      formData := AddDefaults();
      errors := map[];
    }

    /** `handleChange`: the named field takes the input's value, and its error, if set, is blanked. */
    method HandleChange(name: FieldName, value: string)
      requires Valid()
      modifies this
      ensures Valid()
      ensures formData == old(formData)[name := value]
      ensures errors == ClearedError(old(errors), name)
    {
      formData := formData[name := value];
      if name in errors && errors[name] != "" {
        errors := errors[name := ""];
      }
    }

    /** `validateForm`: replaces the errors by what the checks find; valid exactly when there are none. */
    method ValidateForm(isPast: string -> bool) returns (ok: bool)
      requires Valid()
      modifies this`errors
      ensures errors == ValidationErrors(formData, isPast)
      ensures ok <==> errors == map[]
    {
      var newErrors, valid := CollectErrors(formData, isPast);
      errors := newErrors;
      ok := valid;
    }

    /**
     * `handleSubmit`: a valid form is handed to `onSubmit` (the returned
     * value) and reset; an invalid one stays as typed, with its errors shown.
     */
    method HandleSubmit(isPast: string -> bool) returns (submitted: Option<FormData>)
      requires Valid()
      modifies this
      ensures Valid()
      ensures ValidationErrors(old(formData), isPast) == map[] ==>
        submitted == Some(old(formData)) && formData == AddDefaults() && errors == map[]
      ensures ValidationErrors(old(formData), isPast) != map[] ==>
        submitted == None && formData == old(formData) && errors == ValidationErrors(old(formData), isPast)
    {
      var ok := ValidateForm(isPast);
      if ok {
        submitted := Some(formData);
        formData := AddDefaults();
        errors := map[];
      } else {
        submitted := None;
      }
    }
  }
}
