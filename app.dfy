/**
 * The client's top-level state and its handlers: the loaded `todos`, the
 * `filters` object, the active view, the open forms and the error banner.
 * Each handler receives the outcome of its API call as a parameter.
 */
module App {
  import opened Wrappers
  import opened JsString
  import opened JsObject
  import opened Todos
  import Api
  import Server

  /** The settled promise of an API call: its data, or a rejection. */
  datatype Outcome<T> = Delivered(value: T) | Rejected

  const FetchFailed := "Failed to fetch todos. Please check if the backend server is running."
  const CreateFailed := "Failed to create todo. Please try again."
  const UpdateFailed := "Failed to update todo. Please try again."
  const DeleteFailed := "Failed to delete todo. Please try again."
  const ToggleFailed := "Failed to update todo status. Please try again."

  // ---------------------------------------------------------------------
  // List transitions

  /** `todos.map(todo => todo.id === id ? u : todo)`. */
  function ReplaceById(s: seq<Todo>, id: nat, u: Todo): (r: seq<Todo>)
    ensures |r| == |s|
    ensures forall i :: 0 <= i < |s| ==> r[i] == if s[i].id == id then u else s[i]
  {
    if s == [] then []
    else [if s[0].id == id then u else s[0]] + ReplaceById(s[1..], id, u)
  }

  /** Replacing an id the list does not hold changes nothing. */
  lemma ReplaceAbsentId(s: seq<Todo>, id: nat, u: Todo)
    requires forall t :: t in s ==> t.id != id
    ensures ReplaceById(s, id, u) == s
  {
  }

  /** Applying the same server answer twice is the same as applying it once. */
  lemma ReplaceIdempotent(s: seq<Todo>, id: nat, u: Todo)
    requires u.id == id
    ensures ReplaceById(ReplaceById(s, id, u), id, u) == ReplaceById(s, id, u)
  {
  }

  /** `todos.filter(todo => todo.id !== id)`. */
  function RemoveById(s: seq<Todo>, id: nat): (r: seq<Todo>)
    ensures |r| <= |s|
    ensures forall i :: 0 <= i < |r| ==> r[i].id != id
  {
    if s == [] then []
    else (if s[0].id != id then [s[0]] else []) + RemoveById(s[1..], id)
  }

  /** Exactly the entries with another id remain. */
  lemma {:induction false} RemoveMembership(s: seq<Todo>, id: nat)
    ensures forall t :: t in RemoveById(s, id) <==> t in s && t.id != id
  {
    if s != [] {
      RemoveMembership(s[1..], id);
      assert s == [s[0]] + s[1..];
    }
  }

  /** Removal keeps the order of what stays: it distributes over concatenation. */
  lemma {:induction false} RemoveKeepsOrder(a: seq<Todo>, b: seq<Todo>, id: nat)
    ensures RemoveById(a + b, id) == RemoveById(a, id) + RemoveById(b, id)
  {
    if a == [] {
      assert a + b == b;
    } else {
      var head := if a[0].id != id then [a[0]] else [];
      assert (a + b)[0] == a[0];
      assert (a + b)[1..] == a[1..] + b;
      assert RemoveById(a + b, id) == head + RemoveById(a[1..] + b, id);
      RemoveKeepsOrder(a[1..], b, id);
      assert RemoveById(a, id) == head + RemoveById(a[1..], id);
    }
  }

  /** Removing an id the list does not hold changes nothing. */
  lemma {:induction false} RemoveAbsentId(s: seq<Todo>, id: nat)
    requires forall t :: t in s ==> t.id != id
    ensures RemoveById(s, id) == s
  {
    if s != [] {
      RemoveAbsentId(s[1..], id);
      assert s == [s[0]] + s[1..];
    }
  }

  /** The status `handleToggleStatus` asks for. */
  function ToggledStatus(current: string): (r: string)
    ensures r == "completed" <==> current == "pending"
    ensures r == "pending" <==> current != "pending"
  {
    if current == "pending" then "completed" else "pending"
  }

  /** The body of the toggle request: the status alone. */
  function ToggleBody(current: string): Body {
    Body(None, None, None, None, None, Some(ToggledStatus(current)))
  }

  /** The server accepts every toggle request and changes only the status of the row. */
  lemma ToggleRequestAccepted(current: string, t: Todo)
    ensures UpdateRejection(ToggleBody(current)).None?
    ensures ApplyAll(t, FieldList(ToggleBody(current))) == t.(status := ToggledStatus(current))
  {
    FieldListPatches(t, ToggleBody(current));
  }

  // ---------------------------------------------------------------------
  // Filter transitions

  predicate IsTimeView(view: string) {
    view == "today" || view == "thisweek" || view == "thismonth"
  }

  /** The copy of `filters` that `fetchTodos` sends: a time view sets `filter` to its own name. */
  function ViewFilters(filters: Object, view: string): (r: Object)
    ensures Get(r, "filter") == if IsTimeView(view) then Some(view) else Get(filters, "filter")
    ensures forall k :: k != "filter" ==> Get(r, k) == Get(filters, k)
    ensures DistinctKeys(filters) ==> DistinctKeys(r)
  {
    if IsTimeView(view) then
      SetGet(filters, "filter", Some(view));
      if DistinctKeys(filters) then
        SetKeepsKeysDistinct(filters, "filter", Some(view));
        Set(filters, "filter", Some(view))
      else Set(filters, "filter", Some(view))
    else filters
  }

  /** A time view makes the server list exactly the rows of that window; other views keep the chosen filters. */
  lemma ViewSelectsWindow(filters: Object, view: string)
    requires DistinctKeys(filters)
    ensures view == "today" ==> Server.WindowOf(Api.QueryOf(Api.TruthyParams(ViewFilters(filters, view))).filter) == Some(Server.Today)
    ensures view == "thisweek" ==> Server.WindowOf(Api.QueryOf(Api.TruthyParams(ViewFilters(filters, view))).filter) == Some(Server.ThisWeek)
    ensures view == "thismonth" ==> Server.WindowOf(Api.QueryOf(Api.TruthyParams(ViewFilters(filters, view))).filter) == Some(Server.ThisMonth)
    ensures !IsTimeView(view) ==> Api.TruthyParams(ViewFilters(filters, view)) == Api.TruthyParams(filters)
  {
    Api.SentQueryMatchesObject(ViewFilters(filters, view));
  }

  /** `handleFilterChange`: `'clear'` empties the object; any other key takes the value, a falsy one as `undefined`. */
  function FiltersAfter(filters: Object, filterType: string, value: Option<string>): (r: Object)
    ensures filterType == "clear" ==> r == []
    ensures filterType != "clear" ==> Get(r, filterType) == (if Truthy(value) then value else None)
    ensures filterType != "clear" ==> forall k :: k != filterType ==> Get(r, k) == Get(filters, k)
    ensures DistinctKeys(filters) ==> DistinctKeys(r)
  {
    if filterType == "clear" then []
    else
      var v := if Truthy(value) then value else None;
      SetGet(filters, filterType, v);
      if DistinctKeys(filters) then
        SetKeepsKeysDistinct(filters, filterType, v);
        Set(filters, filterType, v)
      else Set(filters, filterType, v)
  }

  /** A filter set to a falsy value is no longer sent to the server. */
  lemma FalsyFilterNotSent(filters: Object, filterType: string, value: Option<string>, v: string)
    requires DistinctKeys(filters)
    requires filterType != "clear" && !Truthy(value)
    ensures (filterType, v) !in Api.TruthyParams(FiltersAfter(filters, filterType, value))
  {
    Api.ParamMembership(FiltersAfter(filters, filterType, value), filterType, v);
  }

  // ---------------------------------------------------------------------
  // The component state

  class TodoApp {
    var todos: seq<Todo>
    var loading: bool
    var error: Option<string>
    var showAddForm: bool
    var editingTodo: Option<Todo>
    var activeView: string
    var filters: Object

    ghost predicate Valid()
      reads this
    {
      DistinctKeys(filters)
    }

    /** The initial state: no todos, loading, the list view, no filters. */
    constructor ()
      ensures Valid()
      ensures todos == [] && loading && error == None
      ensures !showAddForm && editingTodo == None
      ensures activeView == "list" && filters == []
    {
      todos := [];
      loading := true;
      error := None;
      showAddForm := false;
      editingTodo := None;
      activeView := "list";
      filters := [];
    }

    /** `fetchTodos`: sends the view-adjusted copy of the filters; `filters` itself is not touched. */
    method FetchTodos(response: Outcome<seq<Todo>>) returns (sent: seq<Api.Param>)
      modifies this`todos, this`loading, this`error
      ensures sent == Api.TruthyParams(ViewFilters(filters, activeView))
      ensures response.Delivered? ==> todos == response.value && error == None
      ensures response.Rejected? ==> todos == old(todos) && error == Some(FetchFailed)
      ensures !loading
    {
      loading := true;
      error := None;
      var queryFilters := filters;
      if activeView == "today" {
        queryFilters := Set(queryFilters, "filter", Some("today"));
      } else if activeView == "thisweek" {
        queryFilters := Set(queryFilters, "filter", Some("thisweek"));
      } else if activeView == "thismonth" {
        queryFilters := Set(queryFilters, "filter", Some("thismonth"));
      }
      sent := Api.GetAllTodosParams(queryFilters);
      match response {
        case Delivered(data) => todos := data;
        case Rejected => error := Some(FetchFailed);
      }
      loading := false;
    }

    /** `handleAddTodo`: the created todo goes in front; a failure only sets the error. */
    method HandleAddTodo(response: Outcome<Todo>)
      modifies this`todos, this`showAddForm, this`error
      ensures response.Delivered? ==> todos == [response.value] + old(todos) && !showAddForm && error == None
      ensures response.Rejected? ==>
        todos == old(todos) && showAddForm == old(showAddForm) && error == Some(CreateFailed)
    {
      match response {
        case Delivered(newTodo) =>
          todos := [newTodo] + todos;
          showAddForm := false;
          error := None;
        case Rejected =>
          error := Some(CreateFailed);
      }
    }

    /** `handleUpdateTodo`: the returned record replaces the entries with that id and the edit form closes. */
    method HandleUpdateTodo(id: nat, response: Outcome<Todo>)
      modifies this`todos, this`editingTodo, this`error
      ensures response.Delivered? ==>
        todos == ReplaceById(old(todos), id, response.value) && editingTodo == None && error == None
      ensures response.Rejected? ==>
        todos == old(todos) && editingTodo == old(editingTodo) && error == Some(UpdateFailed)
    {
      match response {
        case Delivered(updated) =>
          todos := ReplaceById(todos, id, updated);
          editingTodo := None;
          error := None;
        case Rejected =>
          error := Some(UpdateFailed);
      }
    }

    /** `handleDeleteTodo`: nothing happens unless the user confirms; then the entries with that id go. */
    method HandleDeleteTodo(id: nat, confirmed: bool, response: Outcome<()>) returns (requested: bool)
      modifies this`todos, this`error
      ensures requested == confirmed
      ensures !confirmed ==> todos == old(todos) && error == old(error)
      ensures confirmed && response.Delivered? ==> todos == RemoveById(old(todos), id) && error == None
      ensures confirmed && response.Rejected? ==> todos == old(todos) && error == Some(DeleteFailed)
    {
      requested := confirmed;
      if confirmed {
        match response {
          case Delivered(_) =>
            todos := RemoveById(todos, id);
            error := None;
          case Rejected =>
            error := Some(DeleteFailed);
        }
      }
    }

    /** `handleToggleStatus`: asks for the other status and takes the returned record. */
    method HandleToggleStatus(id: nat, currentStatus: string, response: Outcome<Todo>) returns (sent: Body)
      modifies this`todos, this`error
      ensures sent == ToggleBody(currentStatus)
      ensures response.Delivered? ==> todos == ReplaceById(old(todos), id, response.value) && error == None
      ensures response.Rejected? ==> todos == old(todos) && error == Some(ToggleFailed)
    {
      sent := ToggleBody(currentStatus);
      match response {
        case Delivered(updated) =>
          todos := ReplaceById(todos, id, updated);
          error := None;
        case Rejected =>
          error := Some(ToggleFailed);
      }
    }

    /** `handleViewChange`: switches the view and closes both forms. */
    method HandleViewChange(view: string)
      modifies this`activeView, this`showAddForm, this`editingTodo
      ensures activeView == view && !showAddForm && editingTodo == None
    {
      activeView := view;
      showAddForm := false;
      editingTodo := None;
    }

    /** `handleFilterChange`. */
    method HandleFilterChange(filterType: string, value: Option<string>)
      requires Valid()
      modifies this`filters
      ensures Valid()
      ensures filters == FiltersAfter(old(filters), filterType, value)
    {
      if filterType == "clear" {
        filters := [];
      } else {
        var v := if Truthy(value) then value else None;
        SetKeepsKeysDistinct(filters, filterType, v);
        filters := Set(filters, filterType, v);
      }
    }
  }
}
