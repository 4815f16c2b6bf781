/**
 * The rows of the `todos` table and the rules the server applies to request
 * bodies before it writes a row: the defaults and title check of
 * `POST /todos`, and the checks, field list and partial update of
 * `PUT /todos/:id`.
 */
module Todos {
  import opened Wrappers
  import opened JsString
  import opened Calendar

  /** One row of the `todos` table. `dueDate` is NULL when `None`. */
  datatype Todo = Todo(
    id: nat,
    title: string,
    description: string,
    dueDate: Option<Date>,
    category: string,
    priority: string,
    status: string,
    createdAt: nat)

  /**
   * The fields of a JSON request body. `None` is a key the body does not
   * carry. For `dueDate`, `Some(None)` is a falsy value (`''` or `null`) and
   * `Some(Some(d))` a date.
   */
  datatype Body = Body(
    title: Option<string>,
    description: Option<string>,
    dueDate: Option<Option<Date>>,
    category: Option<string>,
    priority: Option<string>,
    status: Option<string>)

  /** The 400 responses, one per message the server sends. */
  datatype Reason = TitleRequired | TitleCannotBeEmpty | InvalidStatus | NoFieldsToUpdate

  datatype Failure = Invalid(reason: Reason) | NotFound

  datatype Result<T> = Ok(value: T) | Err(failure: Failure)

  /** A title the server accepts and stores: non-empty and already trimmed. */
  predicate TitleStored(title: string) {
    title != "" && Trim(title) == title
  }

  /** `due_date || null` for a due date that is present in the body. */
  function DueOrNull(v: Option<Option<Date>>): Option<Date> {
    if v.Some? then v.value else None
  }

  /** `x || fallback` for an optional string. */
  function OrDefault(v: Option<string>, fallback: string): (r: string)
    ensures Truthy(v) ==> r == v.value
    ensures !Truthy(v) ==> r == fallback
  {
    if Truthy(v) then v.value else fallback
  }

  /**
   * `POST /todos` given the id and creation time the table would assign:
   * the title check, then the row with its defaults.
   */
  function NewTodo(b: Body, id: nat, now: nat): (r: Result<Todo>)
    ensures r.Err? <==> b.title.None? || Trim(b.title.value) == ""
    ensures r.Err? ==> r.failure == Invalid(TitleRequired)
    ensures r.Ok? ==> TitleStored(r.value.title) && r.value.title == Trim(b.title.value)
    ensures r.Ok? ==> r.value.id == id && r.value.createdAt == now && r.value.status == "pending"
    ensures r.Ok? ==> r.value.description == OrDefault(b.description, "")
    ensures r.Ok? ==> r.value.dueDate == DueOrNull(b.dueDate)
    ensures r.Ok? ==> r.value.category == OrDefault(b.category, "general")
    ensures r.Ok? ==> r.value.priority == OrDefault(b.priority, "medium")
  {
    if b.title.None? || Trim(b.title.value) == "" then
      Err(Invalid(TitleRequired))
    else
      TrimIdempotent(b.title.value);
      Ok(Todo(id, Trim(b.title.value), OrDefault(b.description, ""), DueOrNull(b.dueDate),
              OrDefault(b.category, "general"), OrDefault(b.priority, "medium"), "pending", now))
  }

  /** True when the body carries none of the six updatable keys. */
  predicate NoFieldPresent(b: Body) {
    b.title.None? && b.description.None? && b.dueDate.None?
    && b.category.None? && b.priority.None? && b.status.None?
  }

  /**
   * The 400 answer of `PUT /todos/:id`, if any, in the order the handler
   * tests: an empty title, then a truthy status other than the two allowed
   * ones, then an empty field list. A status of `''` is falsy and passes.
   */
  function UpdateRejection(b: Body): (r: Option<Reason>)
    ensures r == Some(TitleCannotBeEmpty) <==> b.title.Some? && Trim(b.title.value) == ""
    ensures r == Some(InvalidStatus) <==>
      && !(b.title.Some? && Trim(b.title.value) == "")
      && Truthy(b.status) && b.status.value != "pending" && b.status.value != "completed"
    ensures r == Some(NoFieldsToUpdate) ==> NoFieldPresent(b)
    ensures r.None? ==> !NoFieldPresent(b)
    ensures r != Some(TitleRequired)
  {
    if b.title.Some? && Trim(b.title.value) == "" then Some(TitleCannotBeEmpty)
    else if Truthy(b.status) && b.status.value != "pending" && b.status.value != "completed" then Some(InvalidStatus)
    else if NoFieldPresent(b) then Some(NoFieldsToUpdate)
    else None
  }

  /** One `column = ?` entry of the UPDATE statement with its bound value. */
  datatype Assignment =
    | SetTitle(title: string)
    | SetDescription(description: string)
    | SetDueDate(dueDate: Option<Date>)
    | SetCategory(category: string)
    | SetPriority(priority: string)
    | SetStatus(status: string)

  function Assign(t: Todo, a: Assignment): Todo {
    match a
    case SetTitle(v) => t.(title := v)
    case SetDescription(v) => t.(description := v)
    case SetDueDate(v) => t.(dueDate := v)
    case SetCategory(v) => t.(category := v)
    case SetPriority(v) => t.(priority := v)
    case SetStatus(v) => t.(status := v)
  }

  /** The row after `UPDATE todos SET <fields> WHERE id = ?`, the assignments taken left to right. */
  function ApplyAll(t: Todo, fields: seq<Assignment>): Todo
    decreases |fields|
  {
    if fields == [] then t else ApplyAll(Assign(t, fields[0]), fields[1..])
  }

  lemma {:induction false} ApplyAllAppend(t: Todo, a: seq<Assignment>, b: seq<Assignment>)
    ensures ApplyAll(t, a + b) == ApplyAll(ApplyAll(t, a), b)
    decreases |a|
  {
    if a != [] {
      assert (a + b)[1..] == a[1..] + b;
      ApplyAllAppend(Assign(t, a[0]), a[1..], b);
    } else {
      assert a + b == b;
    }
  }

  /**
   * `u` is `t` after a partial update with body `b`: each key the body
   * carries sets its column (a title trimmed, a falsy description to `''`, a
   * falsy due date to NULL, the other three verbatim), and every other
   * column, the id and the creation time keep their value.
   */
  ghost predicate PatchedFrom(t: Todo, b: Body, u: Todo) {
    && u.id == t.id
    && u.createdAt == t.createdAt
    && u.title == (if b.title.Some? then Trim(b.title.value) else t.title)
    && u.description == (if b.description.Some? then OrDefault(b.description, "") else t.description)
    && u.dueDate == (if b.dueDate.Some? then DueOrNull(b.dueDate) else t.dueDate)
    && u.category == (if b.category.Some? then b.category.value else t.category)
    && u.priority == (if b.priority.Some? then b.priority.value else t.priority)
    && u.status == (if b.status.Some? then b.status.value else t.status)
  }

  /** The entry a key contributes to the field list: one assignment when the body carries it, none otherwise. */
  function TitleEntry(b: Body): seq<Assignment> {
    if b.title.Some? then [SetTitle(Trim(b.title.value))] else []
  }

  function DescriptionEntry(b: Body): seq<Assignment> {
    if b.description.Some? then [SetDescription(OrDefault(b.description, ""))] else []
  }

  function DueDateEntry(b: Body): seq<Assignment> {
    if b.dueDate.Some? then [SetDueDate(DueOrNull(b.dueDate))] else []
  }

  function CategoryEntry(b: Body): seq<Assignment> {
    if b.category.Some? then [SetCategory(b.category.value)] else []
  }

  function PriorityEntry(b: Body): seq<Assignment> {
    if b.priority.Some? then [SetPriority(b.priority.value)] else []
  }

  function StatusEntry(b: Body): seq<Assignment> {
    if b.status.Some? then [SetStatus(b.status.value)] else []
  }

  /** The SET list of `PUT /todos/:id` for body `b`. */
  function FieldList(b: Body): seq<Assignment> {
    TitleEntry(b) + DescriptionEntry(b) + DueDateEntry(b) + CategoryEntry(b) + PriorityEntry(b) + StatusEntry(b)
  }

  /** Applying the SET list changes exactly the columns the body names, as `PatchedFrom` says. */
  lemma FieldListPatches(t: Todo, b: Body)
    ensures PatchedFrom(t, b, ApplyAll(t, FieldList(b)))
  {
    var a1 := TitleEntry(b);
    var a2 := a1 + DescriptionEntry(b);
    var a3 := a2 + DueDateEntry(b);
    var a4 := a3 + CategoryEntry(b);
    var a5 := a4 + PriorityEntry(b);
    ApplyAllAppend(t, a1, DescriptionEntry(b));
    ApplyAllAppend(t, a2, DueDateEntry(b));
    ApplyAllAppend(t, a3, CategoryEntry(b));
    ApplyAllAppend(t, a4, PriorityEntry(b));
    ApplyAllAppend(t, a5, StatusEntry(b));
    var u1 := ApplyAll(t, a1);
    var u2 := ApplyAll(u1, DescriptionEntry(b));
    var u3 := ApplyAll(u2, DueDateEntry(b));
    var u4 := ApplyAll(u3, CategoryEntry(b));
    var u5 := ApplyAll(u4, PriorityEntry(b));
    var u6 := ApplyAll(u5, StatusEntry(b));
    assert u6 == ApplyAll(t, FieldList(b));
  }

  /** The SET list is empty exactly when the body names none of the six columns. */
  lemma FieldListEmpty(b: Body)
    ensures FieldList(b) == [] <==> NoFieldPresent(b)
  {
  }

  /** A status of `''` is falsy, so the status check lets it through and the SET list assigns it. */
  lemma EmptyStatusAccepted(t: Todo)
    ensures UpdateRejection(Body(None, None, None, None, None, Some(""))).None?
    ensures ApplyAll(t, FieldList(Body(None, None, None, None, None, Some("")))).status == ""
  {
    FieldListPatches(t, Body(None, None, None, None, None, Some("")));
  }

  /**
   * Builds the `updateFields`/`values` lists of `PUT /todos/:id`, one entry
   * per key the body carries, in the handler's order.
   */
  method UpdateFields(b: Body) returns (fields: seq<Assignment>)
    ensures fields == FieldList(b)
  {
    fields := [];
    if b.title.Some? {
      fields := fields + [SetTitle(Trim(b.title.value))];
    }
    assert fields == TitleEntry(b);
    if b.description.Some? {
      fields := fields + [SetDescription(OrDefault(b.description, ""))];
    }
    assert fields == TitleEntry(b) + DescriptionEntry(b);
    if b.dueDate.Some? {
      fields := fields + [SetDueDate(DueOrNull(b.dueDate))];
    }
    assert fields == TitleEntry(b) + DescriptionEntry(b) + DueDateEntry(b);
    if b.category.Some? {
      fields := fields + [SetCategory(b.category.value)];
    }
    assert fields == TitleEntry(b) + DescriptionEntry(b) + DueDateEntry(b) + CategoryEntry(b);
    if b.priority.Some? {
      fields := fields + [SetPriority(b.priority.value)];
    }
    assert fields == TitleEntry(b) + DescriptionEntry(b) + DueDateEntry(b) + CategoryEntry(b) + PriorityEntry(b);
    if b.status.Some? {
      fields := fields + [SetStatus(b.status.value)];
    }
  }
}
