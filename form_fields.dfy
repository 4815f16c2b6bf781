/**
 * What the add and edit forms share: the field names, their defaults, the
 * per-field error clearing of `handleChange`, and the checks of
 * `validateForm`. Whether a due date lies in the past depends on the
 * browser's clock and date parser, so it is the parameter `isPast`.
 */
module FormFields {
  import opened Wrappers
  import opened JsString
  import opened Calendar
  import opened Todos

  datatype FieldName = Title | Description | DueDate | Category | Priority | Status

  /** `formData`: the text of each input. */
  type FormData = map<FieldName, string>

  /** `errors`: a message per field; a cleared message is `''`. */
  type Errors = map<FieldName, string>

  const TitleMissing := "Title is required"
  const DueInPast := "Due date cannot be in the past"

  /** The initial form of the add dialog. */
  function AddDefaults(): (r: FormData)
    ensures r.Keys == {Title, Description, DueDate, Category, Priority}
    ensures r[Title] == "" && r[Description] == "" && r[DueDate] == ""
    ensures r[Category] == "general" && r[Priority] == "medium"
  {
    map[Title := "", Description := "", DueDate := "", Category := "general", Priority := "medium"]
  }

  /** The initial form of the edit dialog: the add defaults plus a status. */
  function EditDefaults(): (r: FormData)
    ensures r.Keys == AddDefaults().Keys + {Status}
    ensures forall k :: k in AddDefaults() ==> r[k] == AddDefaults()[k]
    ensures r[Status] == "pending"
  {
    AddDefaults()[Status := "pending"]
  }

  /** The value of a todo that fills field `k`; a due date is shown through `dueText`. */
  function TodoField(t: Todo, k: FieldName, dueText: Date -> string): string {
    match k
    case Title => t.title
    case Description => t.description
    case DueDate => if t.dueDate.Some? then dueText(t.dueDate.value) else ""
    case Category => t.category
    case Priority => t.priority
    case Status => t.status
  }

  /** The edit form filled from a todo: each field its value, or its default when that is falsy. */
  function FromTodo(t: Todo, dueText: Date -> string): (r: FormData)
    ensures r.Keys == EditDefaults().Keys
    ensures forall k :: k in r && TodoField(t, k, dueText) != "" ==> r[k] == TodoField(t, k, dueText)
    ensures forall k :: k in r && TodoField(t, k, dueText) == "" ==> r[k] == EditDefaults()[k]
  {
    map k | k in EditDefaults().Keys ::
      if TodoField(t, k, dueText) != "" then TodoField(t, k, dueText) else EditDefaults()[k]
  }

  /** A row whose status is `''` (which an update accepts) is shown as pending; a stored title is shown as is. */
  lemma FromStoredRow(t: Todo, dueText: Date -> string)
    ensures t.status == "" ==> FromTodo(t, dueText)[Status] == "pending"
    ensures TitleStored(t.title) ==> FromTodo(t, dueText)[Title] == t.title
  {
    assert Status in EditDefaults() && Title in EditDefaults();
  }

  /** `handleChange`'s error update: the field's message is blanked if it was set; every other entry stays. */
  function ClearedError(errors: Errors, name: FieldName): (r: Errors)
    ensures name in r <==> name in errors
    ensures name in r ==> r[name] == ""
    ensures forall k :: k != name ==> (k in r <==> k in errors)
    ensures forall k :: k != name && k in r ==> r[k] == errors[k]
  {
    if name in errors && errors[name] != "" then errors[name := ""] else errors
  }

  /** The errors `validateForm` finds: an empty title after trimming, and a non-empty due date in the past. */
  function ValidationErrors(data: FormData, isPast: string -> bool): (r: Errors)
    requires Title in data
    ensures Title in r <==> Trim(data[Title]) == ""
    ensures DueDate in r <==> DueDate in data && data[DueDate] != "" && isPast(data[DueDate])
    ensures forall k :: k in r ==> (k == Title && r[k] == TitleMissing) || (k == DueDate && r[k] == DueInPast)
  {
    var titleErrors: Errors := if Trim(data[Title]) == "" then map[Title := TitleMissing] else map[];
    if DueDate in data && data[DueDate] != "" && isPast(data[DueDate]) then titleErrors[DueDate := DueInPast]
    else titleErrors
  }

  /** `validateForm`'s `newErrors`, filled key by key. */
  method CollectErrors(data: FormData, isPast: string -> bool) returns (newErrors: Errors, valid: bool)
    requires Title in data
    ensures newErrors == ValidationErrors(data, isPast)
    ensures valid <==> Trim(data[Title]) != "" && !(DueDate in data && data[DueDate] != "" && isPast(data[DueDate]))
  {
    newErrors := map[];
    if Trim(data[Title]) == "" {
      newErrors := newErrors[Title := TitleMissing];
    }
    if DueDate in data && data[DueDate] != "" && isPast(data[DueDate]) {
      newErrors := newErrors[DueDate := DueInPast];
    }
    valid := |newErrors.Keys| == 0;
    if !valid {
      assert Title in newErrors || DueDate in newErrors;
    }
  }

  /**
   * The form's title check and the server's agree: the form reports a title
   * error exactly when the server would reject the same title on create and
   * on update.
   */
  lemma TitleCheckAgreesWithServer(data: FormData, isPast: string -> bool, b: Body, id: nat, now: nat)
    requires Title in data
    requires b.title == Some(data[Title])
    ensures Title in ValidationErrors(data, isPast) <==> NewTodo(b, id, now) == Err(Invalid(TitleRequired))
    ensures Title in ValidationErrors(data, isPast) <==> UpdateRejection(b) == Some(TitleCannotBeEmpty)
  {
  }
}
